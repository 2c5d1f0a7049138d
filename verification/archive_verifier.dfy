/**
 The migration's own check of an approval chain in a version 8 database, written independently
 of the repository's verifier: it hashes the stored timestamp text as it stands, does not look
 for repeated identifiers and knows no bound on the length.
 */
module ArchiveVerifier {
  import opened Prelude
  import opened Timestamps
  import opened Records
  import opened AuditTrail
  import opened Json
  import opened Encoding
  import opened Texts
  import opened Cells
  import opened StoredTrail

  function ArchivedFields(r: StoredEvent, sequence: int): seq<Field> {
    [("actor_id", Str(r.actor)),
     ("approval_id", Str(r.approvalId)),
     ("audit_event_id", Str(r.id)),
     ("event_type", Str(KindText(r.kind))),
     ("event_id", Optional(r.eventId)),
     ("execution_id", Optional(r.executionId)),
     ("failure_category", OptionalFailure(r.failure)),
     ("commitment_hash", Optional(r.commitment)),
     ("occurred_at", Str(r.time)),
     ("sequence_number", Int(sequence)),
     ("status", Str(StatusText(r.status)))]
  }

  function ArchivedText(r: StoredEvent, sequence: int, prev: Digest): string {
    Text(Obj(ArchivedFields(r, sequence))) + prev
  }

  function ArchivedScan(h: string -> Digest, reading: Reading, rows: seq<StoredEvent>, head: Digest, k: nat,
                        previous: Digest): bool
    requires k <= |rows|
    decreases |rows| - k
  {
    if k == |rows| then previous == head
    else
      var r := rows[k];
      && PyInt(reading.readInt, r.sequence) == Some(k + 1) && r.prev == previous
      && h(ArchivedText(r, k + 1, previous)) == r.hash
      && ArchivedScan(h, reading, rows, head, k + 1, r.hash)
  }

  predicate ArchiveAccepts(h: string -> Digest, reading: Reading, rows: seq<StoredEvent>, count: Cell, head: Digest) {
    PyInt(reading.readInt, count) == Some(|rows|) && ArchivedScan(h, reading, rows, head, 0, GENESIS)
  }

  method VerifyArchivedChain(h: string -> Digest, reading: Reading, rows: seq<StoredEvent>, count: Cell,
                             head: Digest) returns (ok: bool)
    ensures ok == ArchiveAccepts(h, reading, rows, count, head)
  {
    if PyInt(reading.readInt, count) != Some(|rows|) {
      return false;
    }
    var previous := GENESIS;
    for k := 0 to |rows|
      invariant ArchivedScan(h, reading, rows, head, 0, GENESIS) == ArchivedScan(h, reading, rows, head, k, previous)
    {
      var r := rows[k];
      if PyInt(reading.readInt, r.sequence) != Some(k + 1) || r.prev != previous {
        return false;
      }
      var expected := h(ArchivedText(r, k + 1, previous));
      if expected != r.hash {
        return false;
      }
      previous := r.hash;
    }
    return previous == head;
  }

  lemma PrintedText(reading: Reading, r: StoredEvent, e: AuditEvent)
    requires Inverts(reading.iso) && PrintedTime(r) && Load(reading, r) == Some(e)
    ensures ArchivedText(r, e.payload.sequence, e.prev) == EventText(e.payload, e.prev)
    ensures r.prev == e.prev && r.hash == e.hash && PyInt(reading.readInt, r.sequence) == Some(e.payload.sequence)
  {
    PrintedTimeMeans(reading, r);
    hide KindText, StatusText, DatetimeText, ReadTime, PyInt;
    assert ArchivedFields(r, e.payload.sequence) == AuditFields(e.payload);
  }

  lemma {:induction false} ScansAgree(h: string -> Digest, floatText: real -> string, unsafeReason: string -> bool,
                                      reading: Reading,
                                      rows: seq<StoredEvent>, events: seq<AuditEvent>, head: Digest, k: nat,
                                      previous: Digest, seen: set<string>)
    requires Inverts(reading.iso) && LoadAll(reading, rows) == Some(events) && k <= |rows| <= MAX_SEQUENCE
    requires forall i | 0 <= i < |rows| :: PrintedTime(rows[i])
    requires NewIds(events, k, seen) && KnownActors(events)
    ensures ArchivedScan(h, reading, rows, head, k, previous) <==>
              Scan(TextRules(h, floatText, unsafeReason), events, head, k, previous, seen) == Intact
    decreases |rows| - k
  {
    hide ArchivedText, EventText, PrintedTime, Load, LoadAll, PyInt, ValidActor;
    if k < |rows| {
      PrintedText(reading, rows[k], events[k]);
      ScansAgree(h, floatText, unsafeReason, reading, rows, events, head, k + 1, events[k].hash,
                 seen + {events[k].payload.id});
    }
  }

  /**
   On rows the repository can parse, with distinct identifiers, printed times and at most
   1,000,000 events, the two verifiers accept the same trails, whatever cells hold the numbers.
   */
  lemma VerifiersAgree(h: string -> Digest, floatText: real -> string, unsafeReason: string -> bool, reading: Reading,
                       rows: seq<StoredEvent>, events: seq<AuditEvent>, count: Cell, head: Digest)
    requires Inverts(reading.iso) && LoadAll(reading, rows) == Some(events) && |rows| <= MAX_SEQUENCE
    requires DistinctIds(events) && KnownActors(events)
    requires forall i | 0 <= i < |rows| :: PrintedTime(rows[i])
    ensures ArchiveAccepts(h, reading, rows, count, head) <==>
              Accepted(TextRules(h, floatText, unsafeReason), reading, rows, count, head)
  {
    hide PrintedTime, Load, LoadAll, PyInt, KnownActors;
    AcceptedMeans(TextRules(h, floatText, unsafeReason), reading, rows, count, head);
    ScansAgree(h, floatText, unsafeReason, reading, rows, events, head, 0, GENESIS, {});
  }

  lemma RespelledDocument(e: AuditEvent)
    ensures ArchivedText(Store(e).(time := IsoFormat(e.payload.at)), e.payload.sequence, e.prev) != EventText(e.payload,
        e.prev)
  {
    var r := Store(e).(time := IsoFormat(e.payload.at));
    var f, g := ArchivedFields(r, e.payload.sequence), AuditFields(e.payload);
    OtherSpelling(e.payload.at);
    assert f[8].1 != g[8].1;
    AuditKeys(e.payload);
    assert SameKeys(f, g);
    assert DistinctKeys(f) && PlainFields(f) by {
      assert forall i | 0 <= i < 11 :: f[i].0 == g[i].0;
      assert forall i | 0 <= i < 11 && i != 8 :: f[i].1 == g[i].1;
    }
    hide ArchivedFields, AuditFields, WellFormed, SameData, DistinctKeys, PlainFields, SameKeys, Text, IsoFormat,
         DatetimeText;
    PlainWellFormed(f);
    PlainWellFormed(g);
    if ArchivedText(r, e.payload.sequence, e.prev) == EventText(e.payload, e.prev) {
      ChainedTextUnambiguous(Obj(f), e.prev, Obj(g), e.prev);
      PlainObjects(f, g);
    }
  }

  /**
   Printed times are needed: a one-event trail whose time is respelled `+00:00` is accepted by the
   repository, and by the migration only if the two spellings' texts clash.
   */
  lemma RespelledChainDisagrees(h: string -> Digest, floatText: real -> string, unsafeReason: string -> bool,
                                reading: Reading, p: AuditPayload)
    requires Inverts(reading.iso) && p.sequence == 1 && ValidActor(p.actor)
    ensures var rules := TextRules(h, floatText, unsafeReason);
            var e := NextEvent(rules, p, GENESIS);
            var r := Store(e).(time := IsoFormat(p.at));
            && Accepted(rules, reading, [r], Integer(1), e.hash)
            && (ArchiveAccepts(h, reading, [r], Integer(1), e.hash) ==>
                   Clash(h, ArchivedText(r, 1, GENESIS), EventText(p, GENESIS)))
  {
    var rules := TextRules(h, floatText, unsafeReason);
    var e := NextEvent(rules, p, GENESIS);
    var r := Store(e).(time := IsoFormat(p.at));
    assert e.payload == p && e.prev == GENESIS && e.hash == rules.event(p, GENESIS) == h(EventText(p, GENESIS));
    assert r.hash == e.hash;
    hide *;
    RespelledTimestampUnnoticed(reading, e);
    RespelledDocument(e);
    OneRowAccepted(rules, reading, r, e);
    if ArchiveAccepts(h, reading, [r], Integer(1), e.hash) {
      OneRowArchived(h, reading, r);
    }
    ClashMeans(h, ArchivedText(r, 1, GENESIS), EventText(p, GENESIS));
  }

  lemma OneRowAccepted(rules: Rules, reading: Reading, r: StoredEvent, e: AuditEvent)
    requires Load(reading, r) == Some(e) && e.payload.sequence == 1 && ValidActor(e.payload.actor)
    requires e.prev == GENESIS && e.hash == rules.event(e.payload, e.prev)
    ensures Accepted(rules, reading, [r], Integer(1), e.hash)
  {
    hide Load, ValidActor;
    var none: set<string> := {};
    assert StoredScan(rules, reading, [r], e.hash, 1, e.hash, none + {e.payload.id});
    assert StoredScan(rules, reading, [r], e.hash, 0, GENESIS, none);
  }

  lemma OneRowArchived(h: string -> Digest, reading: Reading, r: StoredEvent)
    requires ArchiveAccepts(h, reading, [r], Integer(1), r.hash)
    ensures h(ArchivedText(r, 1, GENESIS)) == r.hash
  {
    hide ArchivedText;
    assert [r][0] == r;
  }

  lemma ClashMeans(h: string -> Digest, s: string, t: string)
    ensures Clash(h, s, t) <==> s != t && h(s) == h(t)
  {
  }
}
