/** Every repository operation keeps the invariant of the tables. */
module Preservation {
  import opened Prelude
  import opened Timestamps
  import opened Texts
  import opened Records
  import opened AuditTrail
  import opened Ledger
  import opened Transactions
  import opened Invariants
  import opened Frames

  lemma CoherentAt(rules: Rules, db: Db, id: string)
    requires Inv(rules, db) && id in db.approvals
    ensures Coherent(rules, id, ViewOf(db, id)) && id in db.events
    ensures ViewOf(db, id).row == db.approvals[id] && ViewOf(db, id).events == EventsOf(db, id)
  {
    hide Coherent, EventsIndexed, ExecutionsIndexed;
    assert id in db.events.Keys;
  }

  /** With the invariant, the next event at the head is refused only for a repeated identifier or the actor's length. */
  lemma AppendsAtEnd(rules: Rules, db: Db, mid: Db, p: AuditPayload)
    requires Inv(rules, db) && p.approvalId in db.approvals && p.approvalId in mid.approvals
    requires mid.events == db.events && mid.auditIds == db.auditIds
    requires p.sequence == db.approvals[p.approvalId].count + 1
    ensures Append(rules, mid, p, db.approvals[p.approvalId].head) ==
            if p.id in db.auditIds || !StorableActor(p.actor) then None else Some(Appended(rules, mid, p))
    ensures p.sequence == |EventsOf(db, p.approvalId)| + 1
  {
    CoherentAt(rules, db, p.approvalId);
    hide Inv, Append, Appended;
    assert EventsOf(mid, p.approvalId) == EventsOf(db, p.approvalId);
    AppendAtEnd(rules, mid, p, db.approvals[p.approvalId].head);
  }

  /** Tables that hold an event of an actor the model refuses do not satisfy the invariant. */
  lemma InvalidActorBreaks(rules: Rules, mid: Db, p: AuditPayload)
    requires p.approvalId in mid.approvals && !ValidActor(p.actor)
    ensures !Inv(rules, Appended(rules, mid, p))
  {
    hide Inv, ValidActor;
    var db := Appended(rules, mid, p);
    var events := EventsOf(db, p.approvalId);
    assert events[|events| - 1].payload == p;
    assert !KnownActors(events);
    hide Appended, KnownActors;
    if Inv(rules, db) {
      CoherentLinked(rules, db, p.approvalId);
    }
  }

  /** Nor do tables with a row that cannot be read back. */
  lemma UnreadableBreaks(rules: Rules, db: Db, id: string)
    requires id in db.approvals && !ApprovalReadable(rules, db.approvals[id])
    ensures !Inv(rules, db)
  {
    hide Inv, ApprovalReadable, ChainCoherent;
    if Inv(rules, db) {
      CoherentAt(rules, db, id);
    }
  }

  /** An operation that rewrites rows of one approval fails only on a repeated identifier and keeps the invariant. */
  lemma OperationEffect(rules: Rules, db: Db, mid: Db, p: AuditPayload)
    requires Inv(rules, db) && p.approvalId in db.approvals && p.approvalId in mid.approvals
    requires Rewritten(db, mid, p.approvalId)
    requires p.sequence == db.approvals[p.approvalId].count + 1
    requires Rewrites(rules, ViewOf(db, p.approvalId), ViewOf(mid, p.approvalId), p)
    ensures Append(rules, mid, p, db.approvals[p.approvalId].head) ==
            if p.id in db.auditIds then None else Some(Appended(rules, mid, p))
    ensures p.id !in db.auditIds ==> Inv(rules, Appended(rules, mid, p))
  {
    assert ValidActor(p.actor);
    ValidActorStorable(p.actor);
    hide Inv, Rewrites, ViewOf, Append, Appended, ExecutionsIndexed, StorableActor, ValidActor;
    AppendsAtEnd(rules, db, mid, p);
    hide Rewritten;
    if p.id !in db.auditIds {
      OperationKeepsInv(rules, db, mid, p);
    }
  }

  // ---------------------------------------------------------------- create

  /** What the service guarantees of a draft: a pending record bound to its own provenance. */
  predicate DraftSound(rules: Rules, d: Draft) {
    && d.status == Pending
    && ProvenanceReadable(d.provenance)
    && d.provenance.terms == d.terms
    && d.provenanceHash == rules.provenance(d.provenance)
    && d.terms.decision == RequireHumanApproval
    && Before(d.createdAt, d.expiresAt)
  }

  lemma FirstEventChain(rules: Rules, d: Draft, now: DateTime, actor: string, auditId: string)
    requires d.status == Pending && ValidActor(actor)
    ensures var first := Grown(rules, View(DraftRow(d), [], None, None), CreatedEvent(d, now, actor, auditId));
            ChainCoherent(rules, d.approvalId, first)
  {
    var p := CreatedEvent(d, now, actor, auditId);
    hide ValidActor;
    AppendKeepsChain(rules, [], p);
    ReplayAppend([], NextEvent(rules, p, GENESIS));
    assert [] + [NextEvent(rules, p, GENESIS)] == [NextEvent(rules, p, GENESIS)];
    hide Linked, DistinctIds;
  }

  lemma DraftRowSound(rules: Rules, d: Draft, now: DateTime, actor: string, auditId: string)
    requires DraftSound(rules, d)
    ensures var first := Grown(rules, View(DraftRow(d), [], None, None), CreatedEvent(d, now, actor, auditId));
            RowsCoherent(rules, d.approvalId, first)
  {
    hide ApprovalEvent, NextEvent, LinkAt;
  }

  lemma FirstEventCoherent(rules: Rules, d: Draft, now: DateTime, actor: string, auditId: string)
    requires DraftSound(rules, d) && ValidActor(actor)
    ensures var first := Grown(rules, View(DraftRow(d), [], None, None), CreatedEvent(d, now, actor, auditId));
            Coherent(rules, d.approvalId, first)
  {
    hide ChainCoherent, RowsCoherent, Grown, DraftRow, ValidActor;
    FirstEventChain(rules, d, now, actor, auditId);
    DraftRowSound(rules, d, now, actor, auditId);
  }

  lemma SameEventsIndexed(db: Db, mid: Db)
    requires EventsIndexed(db) && mid.events == db.events && mid.auditIds == db.auditIds
    ensures EventsIndexed(mid)
  {
  }

  function Drafted(db: Db, d: Draft): Db {
    db.(approvals := db.approvals[d.approvalId := DraftRow(d)])
  }

  lemma DraftedViews(db: Db, d: Draft)
    requires db.events.Keys == db.approvals.Keys && ExecutionsIndexed(db) && d.approvalId !in db.approvals
    ensures EventsOf(Drafted(db, d), d.approvalId) == []
    ensures ViewOf(Drafted(db, d), d.approvalId) == View(DraftRow(d), [], None, None)
    ensures forall id | id in db.approvals && id != d.approvalId :: ViewOf(Drafted(db, d), id) == ViewOf(db, id)
    ensures ExecutionsIndexed(Drafted(db, d))
  {
    assert d.approvalId !in db.events.Keys;
  }

  lemma CreateIsAppended(rules: Rules, db: Db, d: Draft, now: DateTime, actor: string, auditId: string)
    requires d.approvalId !in db.approvals && EventsOf(Drafted(db, d), d.approvalId) == []
    requires auditId !in db.auditIds && StorableActor(actor)
    requires d.terms.policyVersion == POLICY_VERSION && d.terms.decision == RequireHumanApproval
    ensures CreateTx(rules, db, d, now, actor, auditId) ==
            (Appended(rules, Drafted(db, d), CreatedEvent(d, now, actor, auditId)), Ok(d))
  {
    hide StorableActor, EventsOf, Append, Appended;
    AppendAtEnd(rules, Drafted(db, d), CreatedEvent(d, now, actor, auditId), GENESIS);
  }

  /** A new approval starts a chain of its own and touches nothing else. */
  lemma CreateEffect(rules: Rules, db: Db, d: Draft, now: DateTime, actor: string, auditId: string)
    requires db.events.Keys == db.approvals.Keys && ExecutionsIndexed(db)
    requires d.approvalId !in db.approvals && auditId !in db.auditIds && StorableActor(actor)
    requires d.terms.policyVersion == POLICY_VERSION && d.terms.decision == RequireHumanApproval
    ensures var p := CreatedEvent(d, now, actor, auditId);
            && CreateTx(rules, db, d, now, actor, auditId) == (Appended(rules, Drafted(db, d), p), Ok(d))
            && ViewOf(Drafted(db, d), d.approvalId) == View(DraftRow(d), [], None, None)
            && OnlyViewChanged(db, Appended(rules, Drafted(db, d), p), d.approvalId)
            && ExecutionsIndexed(Drafted(db, d))
  {
    var p := CreatedEvent(d, now, actor, auditId);
    assert Drafted(db, d).events == db.events && Drafted(db, d).approvals.Keys == db.approvals.Keys + {d.approvalId};
    assert p.approvalId == d.approvalId;
    hide *;
    DraftedViews(db, d);
    CreateIsAppended(rules, db, d, now, actor, auditId);
    AppendedOnlyView(rules, db, Drafted(db, d), p);
  }

  /** `create` keeps the invariant exactly when it changes nothing or its actor is one the model accepts. */
  lemma CreateKeepsInv(rules: Rules, db: Db, d: Draft, now: DateTime, actor: string, auditId: string)
    requires Inv(rules, db) && DraftSound(rules, d)
    ensures var db' := CreateTx(rules, db, d, now, actor, auditId).0;
            Inv(rules, db') <==> db' == db || ValidActor(actor)
  {
    if d.approvalId in db.approvals || auditId in db.auditIds || !StorableActor(actor) {
      CreateRefused(rules, db, d, now, actor, auditId);
      if ValidActor(actor) {
        ValidActorStorable(actor);
      }
      hide *;
    } else {
      DraftTerms(rules, d);
      TablesIndexed(rules, db);
      hide *;
      CreateEffect(rules, db, d, now, actor, auditId);
      CreatedAppends(d, now, actor, auditId);
      if ValidActor(actor) {
        CreatedInv(rules, db, d, now, actor, auditId);
      } else {
        DraftedIn(db, d);
        InvalidActorBreaks(rules, Drafted(db, d), CreatedEvent(d, now, actor, auditId));
      }
    }
  }

  lemma DraftedIn(db: Db, d: Draft)
    ensures d.approvalId in Drafted(db, d).approvals
  {
  }

  lemma CreatedAppends(d: Draft, now: DateTime, actor: string, auditId: string)
    ensures CreatedEvent(d, now, actor, auditId).approvalId == d.approvalId
    ensures CreatedEvent(d, now, actor, auditId).actor == actor
  {
  }

  lemma DraftTerms(rules: Rules, d: Draft)
    requires DraftSound(rules, d)
    ensures d.terms.policyVersion == POLICY_VERSION && d.terms.decision == RequireHumanApproval
  {
  }

  lemma TablesIndexed(rules: Rules, db: Db)
    requires Inv(rules, db)
    ensures db.events.Keys == db.approvals.Keys && ExecutionsIndexed(db) && EventsIndexed(db)
  {
    hide EventsIndexed, ExecutionsIndexed, Coherent;
  }

  lemma CreateRefused(rules: Rules, db: Db, d: Draft, now: DateTime, actor: string, auditId: string)
    requires d.approvalId in db.approvals || auditId in db.auditIds || !StorableActor(actor)
    ensures CreateTx(rules, db, d, now, actor, auditId).0 == db
  {
    hide StorableActor, SequenceTaken;
  }

  lemma CreatedInv(rules: Rules, db: Db, d: Draft, now: DateTime, actor: string, auditId: string)
    requires Inv(rules, db) && DraftSound(rules, d) && ValidActor(actor) && d.approvalId !in db.approvals
    requires ExecutionsIndexed(Drafted(db, d))
    requires ViewOf(Drafted(db, d), d.approvalId) == View(DraftRow(d), [], None, None)
    requires OnlyViewChanged(db, Appended(rules, Drafted(db, d), CreatedEvent(d, now, actor, auditId)), d.approvalId)
    ensures Inv(rules, Appended(rules, Drafted(db, d), CreatedEvent(d, now, actor, auditId)))
  {
    var p := CreatedEvent(d, now, actor, auditId);
    var db' := Appended(rules, Drafted(db, d), p);
    hide Coherent, EventsIndexed, ExecutionsIndexed, OnlyViewChanged, Appended, ValidActor, ViewOf, DraftSound,
         DraftRow, Grown;
    FirstEventCoherent(rules, d, now, actor, auditId);
    AppendedViews(rules, Drafted(db, d), p);
    SameEventsIndexed(db, Drafted(db, d));
    AppendedIndexed(rules, Drafted(db, d), p);
    AppendedExecutions(rules, Drafted(db, d), p);
    AppendedKeys(rules, Drafted(db, d), p);
    assert d.approvalId in db'.approvals.Keys;
    hide CreatedEvent;
    OnlyViewCoherent(rules, db, db', d.approvalId);
  }

  // ---------------------------------------------------------------- decisions

  function WithRow(db: Db, id: string, row: ApprovalRow): Db {
    db.(approvals := db.approvals[id := row])
  }

  lemma RowViews(db: Db, id: string, row: ApprovalRow)
    requires id in db.approvals
    ensures var mid := WithRow(db, id, row);
            && mid.approvals.Keys == db.approvals.Keys
            && ViewOf(mid, id) == ViewOf(db, id).(row := row)
            && forall other | other in db.approvals && other != id :: ViewOf(mid, other) == ViewOf(db, other)
  {
  }

  lemma RowIndexed(db: Db, id: string, row: ApprovalRow)
    requires id in db.approvals && ExecutionsIndexed(db)
    ensures ExecutionsIndexed(WithRow(db, id, row))
  {
  }

  /** Rewriting only the approval row changes no other view. */
  lemma RowOnly(db: Db, id: string, row: ApprovalRow)
    requires id in db.approvals && ExecutionsIndexed(db)
    ensures Rewritten(db, WithRow(db, id, row), id)
    ensures ViewOf(WithRow(db, id, row), id) == ViewOf(db, id).(row := row)
  {
    hide ViewOf, ExecutionsIndexed;
    RowViews(db, id, row);
    RowIndexed(db, id, row);
  }

  lemma DecideKeepsInv(rules: Rules, db: Db, id: string, row: ApprovalRow, p: AuditPayload)
    requires Inv(rules, db) && id in db.approvals && p.approvalId == id
    requires p.sequence == db.approvals[id].count + 1
    requires Rewrites(rules, ViewOf(db, id), ViewOf(db, id).(row := row), p)
    ensures DecideTx(rules, db, id, row, p) == if p.id in db.auditIds then None
              else Some(Appended(rules, WithRow(db, id, row), p))
    ensures p.id !in db.auditIds ==> Inv(rules, Appended(rules, WithRow(db, id, row), p))
  {
    hide AllCoherent, EventsIndexed, ExecutionsIndexed, Append, Appended, Rewrites, Rewritten, ViewOf;
    RowOnly(db, id, row);
    OperationEffect(rules, db, WithRow(db, id, row), p);
  }

  lemma ExpireRewrites(rules: Rules, id: string, v: View, now: DateTime, auditId: string)
    requires Coherent(rules, id, v) && v.row.status == Pending && Lapsed(v.row, now)
    ensures Rewrites(rules, v, v.(row := ExpiredRow(v.row, now)), ExpireEvent(id, v.row, now, auditId))
  {
    hide Linked, DistinctIds, Replay, LinkAt;
  }

  lemma DecideRewrites(rules: Rules, id: string, v: View, target: ApprovalStatus, now: DateTime, actor: string,
                       reason: Option<string>, auditId: string)
    requires Coherent(rules, id, v) && v.row.status == Pending && !Lapsed(v.row, now)
    requires target in {Approved, Rejected} && ValidActor(actor)
    requires target == Rejected ==> reason.Some? && ReadableReason(rules.unsafeReason, reason.value)
    ensures Rewrites(rules, v, v.(row := DecidedRow(v.row, target, now, actor, reason)),
                     DecisionEvent(id, v.row, target, now, actor, auditId))
  {
    hide Linked, DistinctIds, Replay, LinkAt, KnownActors, ValidActor, ReadableReason;
  }

  lemma RefuseRewrites(rules: Rules, id: string, v: View, now: DateTime, actor: string, auditId: string)
    requires Coherent(rules, id, v) && v.row.status != Pending && ValidActor(actor)
    ensures Rewrites(rules, v, v, RefuseEvent(id, v.row, now, actor, auditId))
  {
    hide Linked, DistinctIds, Replay, LinkAt;
  }

  lemma ExpireKeepsInv(rules: Rules, db: Db, id: string, now: DateTime, auditId: string)
    requires Inv(rules, db) && id in db.approvals && db.approvals[id].status == Pending && Lapsed(db.approvals[id], now)
    ensures var row := db.approvals[id];
            ExpireTx(rules, db, id, now, auditId) ==
            if auditId in db.auditIds then None
            else Some(Appended(rules, WithRow(db, id, ExpiredRow(row, now)), ExpireEvent(id, row, now, auditId)))
    ensures auditId !in db.auditIds ==> Inv(rules, ExpireTx(rules, db, id, now, auditId).value)
  {
    hide Coherent, AllCoherent, EventsIndexed, ExecutionsIndexed, Rewrites, DecideTx, Appended;
    var row := db.approvals[id];
    CoherentAt(rules, db, id);
    ExpireRewrites(rules, id, ViewOf(db, id), now, auditId);
    DecideKeepsInv(rules, db, id, ExpiredRow(row, now), ExpireEvent(id, row, now, auditId));
  }

  lemma GetKeepsInv(rules: Rules, db: Db, id: string, now: DateTime, auditId: string)
    requires Inv(rules, db)
    ensures Inv(rules, GetTx(rules, db, id, now, auditId).0)
  {
    hide Inv, ApprovalSoundness, ExpireTx;
    if id in db.approvals && db.approvals[id].status == Pending && Lapsed(db.approvals[id], now) {
      ExpireKeepsInv(rules, db, id, now, auditId);
    }
  }

  lemma RefuseKeepsInv(rules: Rules, db: Db, id: string, now: DateTime, actor: string, auditId: string)
    requires Inv(rules, db) && id in db.approvals && db.approvals[id].status != Pending && ValidActor(actor)
    ensures var p := RefuseEvent(id, db.approvals[id], now, actor, auditId);
            && Append(rules, db, p, db.approvals[id].head) ==
               (if auditId in db.auditIds then None else Some(Appended(rules, db, p)))
            && (auditId !in db.auditIds ==> Inv(rules, Appended(rules, db, p)))
  {
    hide Coherent, AllCoherent, EventsIndexed, ExecutionsIndexed, Rewrites, Append, Appended;
    var p := RefuseEvent(id, db.approvals[id], now, actor, auditId);
    CoherentAt(rules, db, id);
    RefuseRewrites(rules, id, ViewOf(db, id), now, actor, auditId);
    OperationEffect(rules, db, db, p);
  }

  /** What the stored result of a transition needs so that every model accepts it afterwards. */
  predicate Admissible(rules: Rules, row: ApprovalRow, target: ApprovalStatus, now: DateTime, actor: string,
                       reason: Option<string>) {
    if row.status == Pending && Lapsed(row, now) then true
    else if row.status != Pending then ValidActor(actor)
    else ReadsBack(rules, target, actor, reason)
  }

  lemma AdmissibleKeepsInv(rules: Rules, db: Db, id: string, target: ApprovalStatus, now: DateTime, actor: string,
                           reason: Option<string>, auditId: string)
    requires Inv(rules, db) && (id in db.approvals ==> Admissible(rules, db.approvals[id], target, now, actor, reason))
    ensures Inv(rules, TransitionTx(rules, db, id, target, now, actor, reason, auditId).0)
  {
    hide Inv, ApprovalSoundness, ExpireTx, Append, DecideTx, Appended, ValidActor, ReadableReason;
    if id in db.approvals && target in {Approved, Rejected} {
      var row := db.approvals[id];
      if row.status == Pending && Lapsed(row, now) {
        ExpireKeepsInv(rules, db, id, now, auditId);
      } else if row.status != Pending {
        RefuseKeepsInv(rules, db, id, now, actor, auditId);
      } else {
        CoherentAt(rules, db, id);
        hide Coherent, Rewrites;
        DecideRewrites(rules, id, ViewOf(db, id), target, now, actor, reason, auditId);
        DecideKeepsInv(rules, db, id, DecidedRow(row, target, now, actor, reason),
                       DecisionEvent(id, row, target, now, actor, auditId));
      }
    }
  }

  lemma DecisionUnreadable(rules: Rules, row: ApprovalRow, target: ApprovalStatus, now: DateTime, actor: string,
                           reason: Option<string>,
                           count: int, head: Digest)
    requires target in {Approved, Rejected} && row.status == Pending && !Lapsed(row, now)
    requires !Admissible(rules, row, target, now, actor, reason)
    ensures !ApprovalReadable(rules, DecidedRow(row, target, now, actor, reason).(count := count, head := head))
  {
    hide ValidActor, ReadableReason;
  }

  /** What `DecideTx` returns is the appended tables, whose row is the decided one at the new head. */
  lemma DecideIsAppended(rules: Rules, db: Db, id: string, row: ApprovalRow, p: AuditPayload)
    requires Inv(rules, db) && id in db.approvals && p.approvalId == id && p.sequence == db.approvals[id].count + 1
    requires DecideTx(rules, db, id, row, p).Some?
    ensures var db' := DecideTx(rules, db, id, row, p).value;
            && db' == Appended(rules, WithRow(db, id, row), p)
            && id in db'.approvals && db'.approvals[id] == row.(count := p.sequence, head := db'.approvals[id].head)
  {
    hide Inv, StorableActor;
    AppendsAtEnd(rules, db, WithRow(db, id, row), p);
    hide Append, LinkAt, NextEvent;
  }

  lemma RefusalBreaks(rules: Rules, db: Db, id: string, now: DateTime, actor: string, auditId: string)
    requires Inv(rules, db) && id in db.approvals && !ValidActor(actor)
    ensures var db' := Append(rules, db, RefuseEvent(id, db.approvals[id], now, actor, auditId), db.approvals[id].head);
            db'.Some? ==> !Inv(rules, db'.value)
  {
    var p := RefuseEvent(id, db.approvals[id], now, actor, auditId);
    hide Inv, Append, Appended, ValidActor, StorableActor;
    AppendsAtEnd(rules, db, db, p);
    InvalidActorBreaks(rules, db, p);
  }

  lemma DecisionBreaks(rules: Rules, db: Db, id: string, target: ApprovalStatus, now: DateTime, actor: string,
                       reason: Option<string>, p: AuditPayload)
    requires Inv(rules, db) && id in db.approvals && !Admissible(rules, db.approvals[id], target, now, actor, reason)
    requires target in {Approved, Rejected} && db.approvals[id].status == Pending && !Lapsed(db.approvals[id], now)
    requires p.approvalId == id && p.sequence == db.approvals[id].count + 1
    ensures var db' := DecideTx(rules, db, id, DecidedRow(db.approvals[id], target, now, actor, reason), p);
            db'.Some? ==> !Inv(rules, db'.value)
  {
    hide *;
    var row' := DecidedRow(db.approvals[id], target, now, actor, reason);
    if DecideTx(rules, db, id, row', p).Some? {
      DecideIsAppended(rules, db, id, row', p);
      var db' := DecideTx(rules, db, id, row', p).value;
      DecisionUnreadable(rules, db.approvals[id], target, now, actor, reason, p.sequence, db'.approvals[id].head);
      UnreadableBreaks(rules, db', id);
    }
  }

  lemma InadmissibleBreaks(rules: Rules, db: Db, id: string, target: ApprovalStatus, now: DateTime, actor: string,
                           reason: Option<string>, auditId: string)
    requires Inv(rules, db) && id in db.approvals && !Admissible(rules, db.approvals[id], target, now, actor, reason)
    requires TransitionTx(rules, db, id, target, now, actor, reason, auditId).0 != db
    ensures !Inv(rules, TransitionTx(rules, db, id, target, now, actor, reason, auditId).0)
  {
    var row := db.approvals[id];
    TransitionCases(rules, db, id, target, now, actor, reason, auditId);
    hide Inv, TransitionTx, Append, DecideTx, ExpireTx, ReadsBack, ValidActor, Lapsed, DecidedRow;
    if row.status != Pending {
      RefusalBreaks(rules, db, id, now, actor, auditId);
    } else {
      DecisionBreaks(rules, db, id, target, now, actor, reason, DecisionEvent(id, row, target, now, actor, auditId));
    }
  }

  /**
   `transition` keeps the invariant exactly when it changes nothing or stores nothing a model
   refuses: the expiry of a lapsed approval, or a decision by a valid actor, with a readable
   reason if it rejects.
   */
  lemma TransitionKeepsInv(rules: Rules, db: Db, id: string, target: ApprovalStatus, now: DateTime, actor: string,
                           reason: Option<string>, auditId: string)
    requires Inv(rules, db)
    ensures var db' := TransitionTx(rules, db, id, target, now, actor, reason, auditId).0;
            Inv(rules, db') <==> db' == db || (id in db.approvals
                                               && Admissible(rules, db.approvals[id], target, now, actor, reason))
  {
    hide Inv, Admissible;
    if id in db.approvals {
      if Admissible(rules, db.approvals[id], target, now, actor, reason) {
        AdmissibleKeepsInv(rules, db, id, target, now, actor, reason, auditId);
      } else if TransitionTx(rules, db, id, target, now, actor, reason, auditId).0 != db {
        InadmissibleBreaks(rules, db, id, target, now, actor, reason, auditId);
      }
    }
    hide *;
  }

  // ---------------------------------------------------------------- claim

  lemma OnlyViewChangedTwice(db: Db, db': Db, db'': Db, id: string)
    requires id in db'.approvals && OnlyViewChanged(db, db', id) && OnlyViewChanged(db', db'', id)
    ensures OnlyViewChanged(db, db'', id)
  {
    hide ViewOf;
  }

  function AuthorizeEvent(id: string, row: ApprovalRow, body: ExecutionBody, auditId: string): AuditPayload {
    ExecutionEvent(id, row, body.executionId, auditId, ExecutionAuthorized, Prepared, body.actor, body.claimedAt, None)
  }

  function ClaimEvent(id: string, row: ApprovalRow, body: ExecutionBody, auditId: string): AuditPayload {
    ExecutionEvent(id, row.(count := row.count + 1), body.executionId, auditId, ExecutionClaimed, Claimed, body.actor,
                   body.claimedAt, None)
  }

  /** The view after a claim: the CLAIMED row and its two events. */
  function ClaimedView(rules: Rules, id: string, v: View, body: ExecutionBody, auditId: string,
                       auditId': string): View {
    Grown(rules,
          Grown(rules, v.(execution := Some(ExecutionRowOf(rules, body))), AuthorizeEvent(id, v.row, body, auditId)),
          ClaimEvent(id, v.row, body, auditId'))
  }

  lemma ClaimedViewChain(rules: Rules, id: string, v: View, body: ExecutionBody, auditId: string, auditId': string)
    requires Coherent(rules, id, v) && v.execution.None? && v.row.status == Approved
    requires body.approvalId == id && body.status == Claimed && body.completedAt.None? && body.failure.None?
    requires ValidActor(body.actor)
    requires auditId != auditId' && forall i | 0 <= i < |v.events| :: v.events[i].payload.id !in {auditId, auditId'}
    ensures ChainCoherent(rules, id, ClaimedView(rules, id, v, body, auditId, auditId'))
  {
    var p, p' := AuthorizeEvent(id, v.row, body, auditId), ClaimEvent(id, v.row, body, auditId');
    var prepared := v.(execution := Some(ExecutionRow(body.(status := Prepared), GENESIS)));
    var first := Grown(rules, prepared, p);
    hide Linked, DistinctIds, Replay, ValidActor;
    ExtendChain(rules, id, v, first, p);
    ExtendChain(rules, id, first, ClaimedView(rules, id, v, body, auditId, auditId'), p');
  }

  lemma ClaimedViewRows(rules: Rules, id: string, v: View, now: DateTime, actor: string, executionId: string,
                        auditId: string, auditId': string)
    requires Coherent(rules, id, v) && v.execution.None?
    requires v.row.status == Approved && Before(now, v.row.expiresAt) && ValidActor(actor)
    requires v.row.terms.action == AddContactTag && v.row.terms.parameters.Some?
    ensures var body := ClaimedBody(rules, id, v.row, v.row.terms.parameters.value, executionId, now, actor);
            RowsCoherent(rules, id, ClaimedView(rules, id, v, body, auditId, auditId'))
  {
    hide Linked, DistinctIds, Replay, ValidActor, ReadableReason;
  }

  lemma InsertedIndexed(rules: Rules, db: Db, id: string, executionId: string, body: ExecutionBody)
    requires ExecutionsIndexed(db) && id in db.approvals && id !in db.executionOf && executionId !in db.executions
    requires body.executionId == executionId && body.approvalId == id
    ensures ExecutionsIndexed(Inserted(rules, db, id, executionId, body))
  {
    var mid := Inserted(rules, db, id, executionId, body);
    forall other | other in mid.executionOf
      ensures other in mid.approvals && mid.executionOf[other] in mid.executions
      ensures mid.executions[mid.executionOf[other]].body.approvalId == other
    {
      assert other != id ==> other in db.executionOf;
    }
    forall x | x in mid.executions
      ensures mid.executions[x].body.executionId == x
      ensures mid.executions[x].body.approvalId in mid.executionOf
      ensures mid.executionOf[mid.executions[x].body.approvalId] == x
    {
      assert x != executionId ==> x in db.executions;
    }
  }

  lemma InsertedViews(rules: Rules, db: Db, id: string, executionId: string, body: ExecutionBody)
    requires ExecutionsIndexed(db) && id in db.approvals && id !in db.executionOf && executionId !in db.executions
    ensures var mid := Inserted(rules, db, id, executionId, body);
            && ViewOf(mid, id) == ViewOf(db, id).(execution := Some(ExecutionRowOf(rules, body)))
            && forall other | other in db.approvals && other != id :: ViewOf(mid, other) == ViewOf(db, other)
  {
    var mid := Inserted(rules, db, id, executionId, body);
    assert executionId !in db.assessments;
    forall other | other in db.approvals && other != id ensures ViewOf(mid, other) == ViewOf(db, other) {
      if other in db.executionOf {
        assert db.executionOf[other] in db.executions;
      }
    }
  }

  predicate ClaimIdsFresh(db: Db, auditId: string, auditId': string) {
    auditId !in db.auditIds && auditId' !in db.auditIds && auditId != auditId'
  }

  function AfterClaim(rules: Rules, db: Db, id: string, body: ExecutionBody, auditId: string, auditId': string): Db
    requires id in db.approvals
  {
    Appended(rules,
             Appended(rules, Inserted(rules, db, id, body.executionId, body),
                      AuthorizeEvent(id, db.approvals[id], body, auditId)),
             ClaimEvent(id, db.approvals[id], body, auditId'))
  }

  lemma CoherentLinked(rules: Rules, db: Db, id: string)
    requires Inv(rules, db) && id in db.approvals
    ensures Linked(rules, EventsOf(db, id)) && DistinctIds(EventsOf(db, id))
    ensures db.approvals[id].count == |EventsOf(db, id)|
    ensures db.approvals[id].head == LinkAt(EventsOf(db, id), |EventsOf(db, id)|)
    ensures KnownActors(EventsOf(db, id))
  {
    CoherentAt(rules, db, id);
    hide Inv, Linked, DistinctIds, Replay, KnownActors;
  }

  lemma SecondAppend(rules: Rules, db: Db, p: AuditPayload, p': AuditPayload)
    requires p.approvalId in db.approvals && p'.approvalId == p.approvalId
    requires Linked(rules, EventsOf(db, p.approvalId))
    requires p.sequence == |EventsOf(db, p.approvalId)| + 1 && p'.sequence == p.sequence + 1
    ensures p.approvalId in Appended(rules, db, p).approvals
    ensures var first := Appended(rules, db, p);
            && first.approvals[p.approvalId].terms == db.approvals[p.approvalId].terms
            && first.approvals[p.approvalId].count == p.sequence
            && Append(rules, first, p', first.approvals[p.approvalId].head) ==
               if p'.id in db.auditIds + {p.id} || !StorableActor(p'.actor) then None
               else Some(Appended(rules, first, p'))
  {
    hide Linked, Append;
    AppendLinks(rules, EventsOf(db, p.approvalId), p);
    var first := Appended(rules, db, p);
    AppendAtEnd(rules, first, p', first.approvals[p.approvalId].head);
  }

  lemma RecordClaimEffect(rules: Rules, db: Db, id: string, body: ExecutionBody, auditId: string, auditId': string)
    requires id in db.approvals && Linked(rules, EventsOf(db, id))
    requires db.approvals[id].count == |EventsOf(db, id)|
    requires db.approvals[id].head == LinkAt(EventsOf(db, id), |EventsOf(db, id)|)
    ensures RecordClaim(rules, db, id, body, auditId, auditId') ==
            if !ClaimIdsFresh(db, auditId, auditId') || !StorableActor(body.actor) then None
            else Some(Appended(rules, Appended(rules, db, AuthorizeEvent(id, db.approvals[id], body, auditId)),
                               ClaimEvent(id, db.approvals[id], body, auditId')))
  {
    hide Append, Appended, Linked, LinkAt, EventsOf, StorableActor;
    var p, p' := AuthorizeEvent(id, db.approvals[id], body, auditId), ClaimEvent(id, db.approvals[id], body, auditId');
    AppendAtEnd(rules, db, p, db.approvals[id].head);
    if auditId !in db.auditIds && StorableActor(body.actor) {
      SecondAppend(rules, db, p, p');
    }
  }

  /** What a claim that is not refused does: it stores nothing for a repeated identifier or the actor's length. */
  lemma ClaimEffect(rules: Rules, db: Db, id: string, p: Parameters, now: DateTime, actor: string, executionId: string,
                    auditId: string, auditId': string)
    requires Inv(rules, db) && id in db.approvals && db.approvals[id].terms.parameters == Some(p)
    requires ClaimRefusal(rules, db.approvals[id], EventsOf(db, id), now) == None
    requires id !in db.executionOf && executionId !in db.executions
    ensures var body := ClaimedBody(rules, id, db.approvals[id], p, executionId, now, actor);
            ClaimTx(rules, db, id, now, actor, executionId, auditId, auditId') ==
            if ClaimIdsFresh(db, auditId, auditId') && StorableActor(actor)
            then (AfterClaim(rules, db, id, body, auditId, auditId'),
                  if ExecutionReadable(body) then Ok(Claim(body, db.approvals[id])) else Err(ExecutionIntegrity))
            else (db, Err(ExecutionConflict))
  {
    hide ClaimRefusal, Inv;
    var body := ClaimedBody(rules, id, db.approvals[id], p, executionId, now, actor);
    var mid := Inserted(rules, db, id, executionId, body);
    CoherentLinked(rules, db, id);
    assert EventsOf(mid, id) == EventsOf(db, id);
    hide *;
    RecordClaimEffect(rules, mid, id, body, auditId, auditId');
  }

  lemma AfterClaimView(rules: Rules, db: Db, id: string, body: ExecutionBody, auditId: string, auditId': string)
    requires Inv(rules, db) && id in db.approvals
    requires id !in db.executionOf && body.executionId !in db.executions && body.approvalId == id
    ensures var db' := AfterClaim(rules, db, id, body, auditId, auditId');
            && OnlyViewChanged(db, db', id)
            && ViewOf(db', id) == ClaimedView(rules, id, ViewOf(db, id), body, auditId, auditId')
  {
    hide Coherent, EventsIndexed, ExecutionsIndexed, OnlyViewChanged, Appended, ViewOf, Grown;
    var row := db.approvals[id];
    var p, p' := AuthorizeEvent(id, row, body, auditId), ClaimEvent(id, row, body, auditId');
    var mid := Inserted(rules, db, id, body.executionId, body);
    InsertedViews(rules, db, id, body.executionId, body);
    CoherentAt(rules, db, id);
    hide Inv;
    AppendedKeys(rules, mid, p);
    AppendedViews(rules, mid, p);
    AppendedOnlyView(rules, db, mid, p);
    var first := Appended(rules, mid, p);
    AppendedViews(rules, first, p');
    AppendedOnlyView(rules, first, first, p');
    OnlyViewChangedTwice(db, first, Appended(rules, first, p'), id);
  }

  lemma AfterClaimIndexed(rules: Rules, db: Db, id: string, body: ExecutionBody, auditId: string, auditId': string)
    requires EventsIndexed(db) && ExecutionsIndexed(db) && id in db.approvals
    requires id !in db.executionOf && body.executionId !in db.executions && body.approvalId == id
    ensures var db' := AfterClaim(rules, db, id, body, auditId, auditId'); EventsIndexed(db') && ExecutionsIndexed(db')
  {
    hide EventsIndexed, ExecutionsIndexed, Appended;
    var row := db.approvals[id];
    var p, p' := AuthorizeEvent(id, row, body, auditId), ClaimEvent(id, row, body, auditId');
    var mid := Inserted(rules, db, id, body.executionId, body);
    SameEventsIndexed(db, mid);
    InsertedIndexed(rules, db, id, body.executionId, body);
    AppendedIndexed(rules, mid, p);
    AppendedExecutions(rules, mid, p);
    AppendedKeys(rules, mid, p);
    AppendedIndexed(rules, Appended(rules, mid, p), p');
    AppendedExecutions(rules, Appended(rules, mid, p), p');
  }

  lemma AfterClaimInv(rules: Rules, db: Db, id: string, p: Parameters, now: DateTime, actor: string,
                      executionId: string,
                      auditId: string, auditId': string)
    requires Inv(rules, db) && id in db.approvals && db.approvals[id].terms.parameters == Some(p)
    requires db.approvals[id].status == Approved && Before(now, db.approvals[id].expiresAt) && ValidActor(actor)
    requires db.approvals[id].terms.action == AddContactTag
    requires id !in db.executionOf && executionId !in db.executions && ClaimIdsFresh(db, auditId, auditId')
    ensures var body := ClaimedBody(rules, id, db.approvals[id], p, executionId, now, actor);
            Inv(rules, AfterClaim(rules, db, id, body, auditId, auditId'))
  {
    var body := ClaimedBody(rules, id, db.approvals[id], p, executionId, now, actor);
    var v := ViewOf(db, id);
    hide Coherent, EventsIndexed, ExecutionsIndexed, AfterClaim, ClaimedView;
    CoherentAt(rules, db, id);
    AfterClaimView(rules, db, id, body, auditId, auditId');
    AfterClaimIndexed(rules, db, id, body, auditId, auditId');
    FreshInChain(db, id, auditId);
    FreshInChain(db, id, auditId');
    ClaimedViewCoherent(rules, id, v, p, executionId, now, actor, auditId, auditId');
    OnlyViewCoherent(rules, db, AfterClaim(rules, db, id, body, auditId, auditId'), id);
  }

  lemma ClaimedViewCoherent(rules: Rules, id: string, v: View, p: Parameters, executionId: string, now: DateTime,
                            actor: string,
                            auditId: string, auditId': string)
    requires Coherent(rules, id, v) && v.execution.None? && v.row.status == Approved && Before(now, v.row.expiresAt)
    requires ValidActor(actor)
    requires v.row.terms.action == AddContactTag && v.row.terms.parameters == Some(p)
    requires auditId != auditId' && forall i | 0 <= i < |v.events| :: v.events[i].payload.id !in {auditId, auditId'}
    ensures var body := ClaimedBody(rules, id, v.row, p, executionId, now, actor);
            Coherent(rules, id, ClaimedView(rules, id, v, body, auditId, auditId'))
  {
    hide ClaimedView, ChainCoherent, RowsCoherent;
    ClaimedViewChain(rules, id, v, ClaimedBody(rules, id, v.row, p, executionId, now, actor), auditId, auditId');
    ClaimedViewRows(rules, id, v, now, actor, executionId, auditId, auditId');
  }

  lemma InvalidClaimBreaks(rules: Rules, db: Db, id: string, body: ExecutionBody, auditId: string, auditId': string)
    requires id in db.approvals && !ValidActor(body.actor)
    ensures !Inv(rules, AfterClaim(rules, db, id, body, auditId, auditId'))
  {
    hide Inv, ValidActor;
    var mid := Inserted(rules, db, id, body.executionId, body);
    InvalidActorBreaks(rules, Appended(rules, mid, AuthorizeEvent(id, db.approvals[id], body, auditId)),
                       ClaimEvent(id, db.approvals[id], body, auditId'));
  }

  /** `claim` keeps the invariant exactly when it changes nothing or its actor is one the models accept. */
  lemma ClaimKeepsInv(rules: Rules, db: Db, id: string, now: DateTime, actor: string, executionId: string,
                      auditId: string, auditId': string)
    requires Inv(rules, db)
    ensures var db' := ClaimTx(rules, db, id, now, actor, executionId, auditId, auditId').0;
            Inv(rules, db') <==> db' == db || ValidActor(actor)
  {
    hide Inv, Inspect, ApprovalSoundness, RecordClaim, AfterClaim, ValidActor, StorableActor, ExecutionReadable;
    if id in db.approvals && ClaimRefusal(rules, db.approvals[id], EventsOf(db, id), now).None?
       && id !in db.executionOf && executionId !in db.executions
    {
      var p := db.approvals[id].terms.parameters.value;
      ClaimEffect(rules, db, id, p, now, actor, executionId, auditId, auditId');
      if ClaimIdsFresh(db, auditId, auditId') && StorableActor(actor) {
        if ValidActor(actor) {
          AfterClaimInv(rules, db, id, p, now, actor, executionId, auditId, auditId');
        } else {
          InvalidClaimBreaks(rules, db, id, ClaimedBody(rules, id, db.approvals[id], p, executionId, now, actor),
                             auditId, auditId');
        }
      }
    }
  }

  // ---------------------------------------------------------------- complete

  /** The row of a known execution is the execution of its approval's view. */
  lemma ExecutionInView(rules: Rules, db: Db, executionId: string)
    requires Inv(rules, db) && executionId in db.executions
    ensures var x := db.executions[executionId];
            && x.body.executionId == executionId && x.body.approvalId in db.approvals
            && ViewOf(db, x.body.approvalId).execution == Some(x)
            && (ViewOf(db, x.body.approvalId).assessment.Some? <==> executionId in db.assessments)
            && (executionId in db.assessments ==>
                   ViewOf(db, x.body.approvalId).assessment == Some(db.assessments[executionId]))
  {
    hide Coherent, EventsIndexed, AllCoherent;
  }

  function Updated(db: Db, executionId: string, x: ExecutionRow): Db {
    db.(executions := db.executions[executionId := x])
  }

  lemma UpdatedIndexed(db: Db, executionId: string, x: ExecutionRow)
    requires ExecutionsIndexed(db) && executionId in db.executions
    requires x.body.executionId == executionId && x.body.approvalId == db.executions[executionId].body.approvalId
    ensures ExecutionsIndexed(Updated(db, executionId, x))
  {
    var mid := Updated(db, executionId, x);
    forall e | e in mid.executions
      ensures mid.executions[e].body.executionId == e
      ensures mid.executions[e].body.approvalId in mid.executionOf
      ensures mid.executionOf[mid.executions[e].body.approvalId] == e
    {
      assert e in db.executions;
    }
  }

  lemma UpdatedOwnView(db: Db, executionId: string, x: ExecutionRow)
    requires ExecutionsIndexed(db) && executionId in db.executions
    requires x.body.approvalId == db.executions[executionId].body.approvalId
    ensures x.body.approvalId in db.approvals
    ensures ViewOf(Updated(db, executionId, x), x.body.approvalId) == ViewOf(db,
                                                                             x.body.approvalId).(execution := Some(x))
  {
  }

  lemma UpdatedOtherView(db: Db, executionId: string, x: ExecutionRow, other: string)
    requires ExecutionsIndexed(db) && executionId in db.executions
    requires other in db.approvals && other != db.executions[executionId].body.approvalId
    ensures ViewOf(Updated(db, executionId, x), other) == ViewOf(db, other)
  {
    if other in db.executionOf {
      assert db.executionOf[other] != executionId;
    }
  }

  lemma UpdatedViews(db: Db, executionId: string, x: ExecutionRow)
    requires ExecutionsIndexed(db) && executionId in db.executions
    requires x.body.executionId == executionId && x.body.approvalId == db.executions[executionId].body.approvalId
    ensures var mid := Updated(db, executionId, x);
            && x.body.approvalId in db.approvals
            && ViewOf(mid, x.body.approvalId) == ViewOf(db, x.body.approvalId).(execution := Some(x))
            && Rewritten(db, mid, x.body.approvalId)
  {
    hide ViewOf, ExecutionsIndexed;
    forall other | other in db.approvals && other != x.body.approvalId
      ensures ViewOf(Updated(db, executionId, x), other) == ViewOf(db, other)
    {
      UpdatedOtherView(db, executionId, x, other);
    }
    UpdatedOwnView(db, executionId, x);
    UpdatedIndexed(db, executionId, x);
  }

  function OutcomeEvent(row: ApprovalRow, body: ExecutionBody, target: ExecutionStatus, now: DateTime,
                        failure: Option<FailureCategory>,
                        auditId: string): AuditPayload
  {
    ExecutionEvent(body.approvalId, row, body.executionId, auditId, OutcomeKind(target), target, body.actor, now,
                   failure)
  }

  lemma CompleteRewrites(rules: Rules, v: View, target: ExecutionStatus, now: DateTime,
                         failure: Option<FailureCategory>, auditId: string)
    requires v.execution.Some? && v.execution.value.body.status == Claimed
    requires Coherent(rules, v.execution.value.body.approvalId, v)
    requires Terminal(target) && (target == Succeeded) == failure.None?
    ensures var body := v.execution.value.body;
            Rewrites(rules, v, v.(execution := Some(ExecutionRowOf(rules, FinishedBody(body, target, now, failure)))),
                     OutcomeEvent(v.row, body, target, now, failure, auditId))
  {
    hide Linked, DistinctIds, Replay, LinkAt;
  }

  function AfterComplete(rules: Rules, db: Db, executionId: string, target: ExecutionStatus, now: DateTime,
                         failure: Option<FailureCategory>, auditId: string): Db
    requires executionId in db.executions && db.executions[executionId].body.approvalId in db.approvals
  {
    var body := db.executions[executionId].body;
    Appended(rules, Updated(db, executionId, ExecutionRowOf(rules, FinishedBody(body, target, now, failure))),
             OutcomeEvent(db.approvals[body.approvalId], body, target, now, failure, auditId))
  }

  /** Finishing a claimed execution fails only on a repeated identifier, and keeps the invariant. */
  lemma CompleteEffect(rules: Rules, db: Db, executionId: string, target: ExecutionStatus, now: DateTime,
                       failure: Option<FailureCategory>, auditId: string)
    requires Inv(rules, db) && executionId in db.executions && db.executions[executionId].body.status == Claimed
    requires Terminal(target) && (target == Succeeded) == failure.None?
    ensures var body := db.executions[executionId].body;
            && body.approvalId in db.approvals && body.executionId == executionId
            && Append(rules, Updated(db, executionId, ExecutionRowOf(rules, FinishedBody(body, target, now, failure))),
                      OutcomeEvent(db.approvals[body.approvalId], body, target, now, failure, auditId),
                      db.approvals[body.approvalId].head) ==
               (if auditId in db.auditIds then None else Some(AfterComplete(rules, db, executionId, target, now,
                                                                            failure, auditId)))
            && (auditId !in db.auditIds ==>
                   Inv(rules, AfterComplete(rules, db, executionId, target, now, failure, auditId)))
  {
    var x := db.executions[executionId];
    var x' := ExecutionRowOf(rules, FinishedBody(x.body, target, now, failure));
    hide Coherent, AllCoherent, EventsIndexed, ExecutionsIndexed, Rewrites, Append, Appended, ViewOf, Rewritten;
    ExecutionInView(rules, db, executionId);
    UpdatedViews(db, executionId, x');
    hide Inv;
    var id := x.body.approvalId;
    CoherentAt(rules, db, id);
    CompleteRewrites(rules, ViewOf(db, id), target, now, failure, auditId);
    OperationEffect(rules, db, Updated(db, executionId, x'),
                    OutcomeEvent(db.approvals[id], x.body, target, now, failure, auditId));
  }

  lemma CompleteKeepsInv(rules: Rules, db: Db, executionId: string, target: ExecutionStatus, now: DateTime,
                         failure: Option<FailureCategory>, auditId: string)
    requires Inv(rules, db)
    ensures Inv(rules, CompleteTx(rules, db, executionId, target, now, failure, auditId).0)
  {
    hide Inv, ExecutionFault, Append, AfterComplete;
    if Terminal(target) && (target == Succeeded) == failure.None? && executionId in db.executions
       && db.executions[executionId].body.status == Claimed
    {
      CompleteEffect(rules, db, executionId, target, now, failure, auditId);
    }
  }

  // ---------------------------------------------------------------- reconcile

  function Assessed(db: Db, executionId: string, y: AssessmentRow): Db {
    db.(assessments := db.assessments[executionId := y], assessmentIds := db.assessmentIds + {y.body.assessmentId})
  }

  lemma AssessedIndexed(db: Db, executionId: string, y: AssessmentRow)
    requires ExecutionsIndexed(db) && executionId in db.executions
    ensures ExecutionsIndexed(Assessed(db, executionId, y))
  {
  }

  lemma AssessedOwnView(db: Db, executionId: string, y: AssessmentRow)
    requires ExecutionsIndexed(db) && executionId in db.executions
    ensures var id := db.executions[executionId].body.approvalId;
            id in db.approvals && ViewOf(Assessed(db, executionId, y), id) == ViewOf(db, id).(assessment := Some(y))
  {
  }

  lemma AssessedOtherView(db: Db, executionId: string, y: AssessmentRow, other: string)
    requires ExecutionsIndexed(db) && executionId in db.executions
    requires other in db.approvals && other != db.executions[executionId].body.approvalId
    ensures ViewOf(Assessed(db, executionId, y), other) == ViewOf(db, other)
  {
    if other in db.executionOf {
      assert db.executionOf[other] != executionId;
    }
  }

  lemma AssessedViews(db: Db, executionId: string, y: AssessmentRow)
    requires ExecutionsIndexed(db) && executionId in db.executions
    ensures var mid := Assessed(db, executionId, y);
            var id := db.executions[executionId].body.approvalId;
            && id in db.approvals
            && ViewOf(mid, id) == ViewOf(db, id).(assessment := Some(y))
            && Rewritten(db, mid, id)
  {
    hide ViewOf, ExecutionsIndexed;
    var id := db.executions[executionId].body.approvalId;
    AssessedOwnView(db, executionId, y);
    forall other | other in db.approvals && other != id
      ensures ViewOf(Assessed(db, executionId, y), other) == ViewOf(db, other)
    {
      AssessedOtherView(db, executionId, y, other);
    }
    AssessedIndexed(db, executionId, y);
  }

  lemma ReconcileRewrites(rules: Rules, v: View, y: AssessmentRow, actor: string, now: DateTime, auditId: string)
    requires v.execution.Some? && v.execution.value.body.status == Unknown && v.assessment.None?
    requires Coherent(rules, v.execution.value.body.approvalId, v)
    requires AssessmentSound(rules, v.execution.value, y) && ValidActor(actor)
    ensures Rewrites(rules, v, v.(assessment := Some(y)),
                     AssessmentEvent(v.execution.value.body.executionId, v.row, v.execution.value, auditId, actor, now,
                                     y.hash))
  {
    hide Linked, DistinctIds, Replay, LinkAt;
  }

  lemma AssessSound(rules: Rules, v: View, executionId: string, assessmentId: string, outcome: DeclaredOutcome,
                    reason: string,
                    now: DateTime, actor: string)
    requires v.execution.Some? && v.execution.value.body.status == Unknown
    requires v.execution.value.body.executionId == executionId
    requires Coherent(rules, v.execution.value.body.approvalId, v) && ReadableAssessment(actor, reason)
    ensures var x := v.execution.value;
            AssessmentSound(rules, x, Assess(rules, executionId, x, assessmentId, outcome, reason, now, actor))
  {
    hide ChainCoherent, ValidActor;
  }

  /** The tables after an assessment, and its event. */
  function AfterAssess(rules: Rules, db: Db, executionId: string, y: AssessmentRow, auditId: string): Db
    requires executionId in db.executions && db.executions[executionId].body.approvalId in db.approvals
  {
    var x := db.executions[executionId];
    Appended(rules, Assessed(db, executionId, y),
             AssessmentEvent(executionId, db.approvals[x.body.approvalId], x, auditId, y.body.actor, y.body.at, y.hash))
  }

  /** Recording an assessment fails only on a repeated identifier or the actor's length. */
  lemma AssessAppends(rules: Rules, db: Db, executionId: string, y: AssessmentRow, auditId: string)
    requires Inv(rules, db) && executionId in db.executions
    ensures var x := db.executions[executionId];
            var id := x.body.approvalId;
            && id in db.approvals && x.body.executionId == executionId
            && Append(rules, Assessed(db, executionId, y),
                      AssessmentEvent(executionId, db.approvals[id], x, auditId, y.body.actor, y.body.at,
                                      y.hash), db.approvals[id].head) ==
               if auditId in db.auditIds || !StorableActor(y.body.actor) then None
               else Some(AfterAssess(rules, db, executionId, y, auditId))
  {
    hide Inv, Append, Appended, StorableActor;
    ExecutionInView(rules, db, executionId);
    var x := db.executions[executionId];
    AppendsAtEnd(rules, db, Assessed(db, executionId, y),
                 AssessmentEvent(executionId, db.approvals[x.body.approvalId], x, auditId, y.body.actor, y.body.at,
                                 y.hash));
  }

  lemma AssessKeepsInv(rules: Rules, db: Db, executionId: string, outcome: DeclaredOutcome, reason: string,
                       now: DateTime,
                       actor: string, assessmentId: string, auditId: string)
    requires Inv(rules, db) && executionId in db.executions && db.executions[executionId].body.status == Unknown
    requires executionId !in db.assessments && auditId !in db.auditIds && ReadableAssessment(actor, reason)
    ensures db.executions[executionId].body.approvalId in db.approvals
    ensures Inv(rules, AfterAssess(rules, db, executionId,
                                   Assess(rules, executionId, db.executions[executionId], assessmentId, outcome, reason,
                                          now, actor), auditId))
  {
    var x := db.executions[executionId];
    var y := Assess(rules, executionId, x, assessmentId, outcome, reason, now, actor);
    hide Coherent, AllCoherent, EventsIndexed, ExecutionsIndexed, Rewrites, Append, Appended, ViewOf, Rewritten,
         ValidActor;
    ExecutionInView(rules, db, executionId);
    AssessedViews(db, executionId, y);
    hide Inv;
    var id := x.body.approvalId;
    CoherentAt(rules, db, id);
    AssessSound(rules, ViewOf(db, id), executionId, assessmentId, outcome, reason, now, actor);
    hide Assess;
    ReconcileRewrites(rules, ViewOf(db, id), y, actor, now, auditId);
    OperationEffect(rules, db, Assessed(db, executionId, y),
                    AssessmentEvent(executionId, db.approvals[id], x, auditId, actor, now, y.hash));
  }

  /** An assessment some model refuses breaks the invariant. */
  lemma UnreadableAssessmentBreaks(rules: Rules, db: Db, executionId: string, y: AssessmentRow, auditId: string)
    requires executionId in db.executions && db.executions[executionId].body.approvalId in db.approvals
    requires !AssessmentReadable(y.body)
    ensures !Inv(rules, AfterAssess(rules, db, executionId, y, auditId))
  {
    var db' := AfterAssess(rules, db, executionId, y, auditId);
    assert db'.executions == db.executions && executionId in db'.assessments && db'.assessments[executionId] == y;
    hide Inv, AssessmentReadable, AfterAssess, Coherent;
    if Inv(rules, db') {
      ExecutionInView(rules, db', executionId);
      var id := db'.executions[executionId].body.approvalId;
      CoherentAt(rules, db', id);
      CoherentAssessment(rules, id, ViewOf(db', id));
    }
  }

  lemma CoherentAssessment(rules: Rules, id: string, v: View)
    requires Coherent(rules, id, v) && v.assessment.Some?
    ensures AssessmentReadable(v.assessment.value.body)
  {
    hide ChainCoherent, AssessmentReadable, RowSound, ExpiryExact, ExecutionSound;
  }

  /** `reconcile` keeps the invariant exactly when it changes nothing or its texts are ones the models accept. */
  lemma ReconcileKeepsInv(rules: Rules, db: Db, executionId: string, outcome: DeclaredOutcome, reason: string,
                          now: DateTime,
                          actor: string, assessmentId: string, auditId: string)
    requires Inv(rules, db)
    ensures var db' := ReconcileTx(rules, db, executionId, outcome, reason, now, actor, assessmentId, auditId).0;
            Inv(rules, db') <==> db' == db || ReadableAssessment(actor, reason)
  {
    hide Inv, ExecutionFault, Append, AfterAssess, ReadAssessment, ValidActor, StorableActor, StorableReason,
         ReadableAssessmentReason;
    if executionId in db.executions && db.executions[executionId].body.status == Unknown
       && executionId !in db.assessments
    {
      var y := Assess(rules, executionId, db.executions[executionId], assessmentId, outcome, reason, now, actor);
      AssessAppends(rules, db, executionId, y, auditId);
      if auditId !in db.auditIds && StorableActor(actor) {
        if ReadableAssessment(actor, reason) {
          AssessKeepsInv(rules, db, executionId, outcome, reason, now, actor, assessmentId, auditId);
        } else {
          UnreadableAssessmentBreaks(rules, db, executionId, y, auditId);
        }
      }
    }
  }
}
