/**
 Audit rows as the table holds them: the time is text and the number is whatever cell SQLite
 kept.  What the verification loop makes of such rows, and exactly which alterations it notices.
 */
module StoredTrail {
  import opened Prelude
  import opened Timestamps
  import opened Cells
  import opened Records
  import opened AuditTrail
  import opened Encoding

  datatype StoredEvent = StoredEvent(
    id: string,
    approvalId: string,
    executionId: Option<string>,
    eventId: Option<string>,
    failure: Option<FailureCategory>,
    commitment: Option<Digest>,
    sequence: Cell,
    kind: AuditKind,
    status: StatusName,
    actor: string,
    time: string,
    prev: Digest,
    hash: Digest)

  /** How Python reads numbers from text, and times from ISO text. */
  datatype Reading = Reading(readInt: string -> Option<int>, iso: string -> Option<DateTime>)

  /** The row `_append_audit` inserts for an event. */
  function Store(e: AuditEvent): StoredEvent {
    var p := e.payload;
    StoredEvent(p.id, p.approvalId, p.executionId, p.eventId, p.failure, p.commitment, Integer(p.sequence), p.kind,
                p.status,
                p.actor, DatetimeText(p.at), e.prev, e.hash)
  }

  /** `_audit_from_row`; `None` when the number or the time cannot be read. */
  function Load(reading: Reading, r: StoredEvent): Option<AuditEvent> {
    match (PyInt(reading.readInt, r.sequence), ReadTime(reading.iso, r.time))
    case (Some(n), Some(t)) =>
      Some(AuditEvent(AuditPayload(r.id, r.approvalId, r.executionId, r.eventId, r.failure, r.commitment, n, r.kind,
                                   r.status, r.actor, t),
                      r.prev, r.hash))
    case _ => None
  }

  function LoadAll(reading: Reading, rows: seq<StoredEvent>): (r: Option<seq<AuditEvent>>)
    ensures r.Some? ==> |r.value| == |rows| && forall i | 0 <= i < |rows| :: Load(reading, rows[i]) == Some(r.value[i])
    ensures r.None? ==> exists i | 0 <= i < |rows| :: Load(reading, rows[i]).None?
  {
    if rows == [] then Some([])
    else match (LoadAll(reading, rows[..|rows| - 1]), Load(reading, rows[|rows| - 1]))
      case (Some(events), Some(e)) => Some(events + [e])
      case _ => None
  }

  // ---------------------------------------------------------------- the verification loop on stored rows

  function StoredScan(rules: Rules, reading: Reading, rows: seq<StoredEvent>, head: Digest, k: nat, previous: Digest,
                      seen: set<string>): bool
    requires k <= |rows|
    decreases |rows| - k
  {
    if k == |rows| then previous == head
    else match Load(reading, rows[k])
      case None => false
      case Some(e) =>
        && EventReadable(e)
        && e.payload.sequence == k + 1 && e.payload.id !in seen && e.prev == previous
        && rules.event(e.payload, e.prev) == e.hash
        && StoredScan(rules, reading, rows, head, k + 1, e.hash, seen + {e.payload.id})
  }

  predicate Accepted(rules: Rules, reading: Reading, rows: seq<StoredEvent>, count: Cell, head: Digest) {
    PyInt(reading.readInt, count) == Some(|rows|) && StoredScan(rules, reading, rows, head, 0, GENESIS, {})
  }

  /** `verify_audit_chain`, every exception read as a refusal. */
  method VerifyStoredTrail(rules: Rules, reading: Reading, rows: seq<StoredEvent>, count: Cell,
                           head: Digest) returns (ok: bool)
    ensures ok == Accepted(rules, reading, rows, count, head)
  {
    if PyInt(reading.readInt, count) != Some(|rows|) {
      return false;
    }
    var previous := GENESIS;
    var identities: set<string> := {};
    for k := 0 to |rows|
      invariant StoredScan(rules, reading, rows, head, 0, GENESIS, {}) == StoredScan(rules, reading, rows, head, k,
          previous, identities)
    {
      var loaded := Load(reading, rows[k]);
      if loaded.None? || !EventReadable(loaded.value) {
        return false;
      }
      var e := loaded.value;
      if e.payload.sequence != k + 1 || e.payload.id in identities || e.prev != previous {
        return false;
      }
      if rules.event(e.payload, e.prev) != e.hash {
        return false;
      }
      identities := identities + {e.payload.id};
      previous := e.hash;
    }
    return previous == head;
  }

  lemma {:induction false} ScansMatch(rules: Rules, reading: Reading, rows: seq<StoredEvent>, events: seq<AuditEvent>,
                                      head: Digest, k: nat, previous: Digest, seen: set<string>)
    requires LoadAll(reading, rows) == Some(events) && k <= |rows|
    ensures StoredScan(rules, reading, rows, head, k, previous, seen) <==>
              Scan(rules, events, head, k, previous, seen) == Intact
    decreases |rows| - k
  {
    hide Load, LoadAll, EventReadable;
    if k < |rows| {
      ScansMatch(rules, reading, rows, events, head, k + 1, events[k].hash, seen + {events[k].payload.id});
    }
  }

  lemma {:induction false} ScanNeedsLoads(rules: Rules, reading: Reading, rows: seq<StoredEvent>, head: Digest, k: nat,
                                          previous: Digest, seen: set<string>, bad: nat)
    requires k <= bad < |rows| && Load(reading, rows[bad]).None?
    ensures !StoredScan(rules, reading, rows, head, k, previous, seen)
    decreases |rows| - k
  {
    hide Load, EventReadable;
    if k < bad && Load(reading, rows[k]).Some? {
      var e := Load(reading, rows[k]).value;
      ScanNeedsLoads(rules, reading, rows, head, k + 1, e.hash, seen + {e.payload.id}, bad);
    }
  }

  /** Stored rows are accepted exactly when all of them load and the events they load to are. */
  lemma AcceptedMeans(rules: Rules, reading: Reading, rows: seq<StoredEvent>, count: Cell, head: Digest)
    ensures Accepted(rules, reading, rows, count, head) <==>
            && PyInt(reading.readInt, count) == Some(|rows|)
            && LoadAll(reading, rows).Some?
            && Inspect(rules, LoadAll(reading, rows).value, |rows|, head) == Intact
  {
    hide Load, PyInt, LoadAll;
    if LoadAll(reading, rows).Some? {
      ScansMatch(rules, reading, rows, LoadAll(reading, rows).value, head, 0, GENESIS, {});
    } else {
      var bad :| 0 <= bad < |rows| && Load(reading, rows[bad]).None?;
      ScanNeedsLoads(rules, reading, rows, head, 0, GENESIS, {}, bad);
    }
  }

  // ---------------------------------------------------------------- one row

  /** The time is spelled as the repository prints it. */
  ghost predicate PrintedTime(r: StoredEvent) {
    exists t: DateTime :: DatetimeText(t) == r.time
  }

  /** The time is spelled as the repository prints it and the number is stored as an integer. */
  ghost predicate AsWritten(r: StoredEvent) {
    PrintedTime(r) && r.sequence.Integer?
  }

  /** A printed time is read as the time it was printed from, and no other time prints like it. */
  lemma PrintedTimeMeans(reading: Reading, r: StoredEvent)
    requires Inverts(reading.iso)
    ensures PrintedTime(r) <==>
              ReadTime(reading.iso, r.time).Some? && DatetimeText(ReadTime(reading.iso, r.time).value) == r.time
  {
    hide DatetimeText, ReadTime;
    if PrintedTime(r) {
      var t: DateTime :| DatetimeText(t) == r.time;
      PrintedReadBack(reading.iso, t);
    }
  }

  /** Reading back what was written recovers the event, so the text hashed again is the text hashed first. */
  lemma StoredRoundTrip(reading: Reading, e: AuditEvent)
    requires Inverts(reading.iso)
    ensures Load(reading, Store(e)) == Some(e) && AsWritten(Store(e))
    ensures EventText(Load(reading, Store(e)).value.payload, e.prev) == EventText(e.payload, e.prev)
  {
    PrintedReadBack(reading.iso, e.payload.at);
    hide EventText, DatetimeText, ReadTime;
  }

  /** The stored expiry compares with the clock as the original did. */
  lemma StoredOrderKept(iso: string -> Option<DateTime>, now: DateTime, expiry: DateTime)
    requires Inverts(iso)
    ensures ReadTime(iso, DatetimeText(expiry)).Some?
    ensures Before(now, ReadTime(iso, DatetimeText(expiry)).value) <==> Before(now, expiry)
  {
    PrintedReadBack(iso, expiry);
    hide DatetimeText, ReadTime;
  }

  /**
   A row that loads to an event is the row written for it exactly when its time is printed and its
   number an integer.
   */
  lemma OnlyWrittenRow(reading: Reading, r: StoredEvent, e: AuditEvent)
    requires Inverts(reading.iso) && Load(reading, r) == Some(e)
    ensures r == Store(e) <==> AsWritten(r)
  {
    StoredRoundTrip(reading, e);
    PrintedTimeMeans(reading, r);
    hide DatetimeText, ReadTime, PrintedTime;
  }

  /** Two rows load to the same event exactly when they differ at most in how they spell one time and one number. */
  lemma SameEventMeans(reading: Reading, r: StoredEvent, q: StoredEvent)
    requires Load(reading, r).Some?
    ensures Load(reading, q) == Load(reading, r) <==>
            && q.(time := r.time, sequence := r.sequence) == r
            && ReadTime(reading.iso, q.time) == ReadTime(reading.iso, r.time)
            && PyInt(reading.readInt, q.sequence) == PyInt(reading.readInt, r.sequence)
  {
    hide ReadTime, PyInt;
  }

  // ---------------------------------------------------------------- which alterations are noticed

  ghost predicate EventsClash(h: string -> Digest, a: seq<AuditEvent>, b: seq<AuditEvent>) {
    exists i | 0 <= i < |a| && i < |b| ::
      Clash(h, EventText(a[i].payload, a[i].prev), EventText(b[i].payload, b[i].prev))
  }

  /**
   An accepted trail is replaced by other rows, the approval row staying as it is.  The
   replacement is accepted too exactly when it loads, row by row, to the same events - unless two
   hashed texts clash.
   */
  lemma UnnoticedMeansSameEvents(h: string -> Digest, floatText: real -> string, unsafeReason: string -> bool,
                                 reading: Reading,
                                 rows: seq<StoredEvent>, altered: seq<StoredEvent>, count: Cell, head: Digest)
    requires Accepted(TextRules(h, floatText, unsafeReason), reading, rows, count, head)
    ensures LoadAll(reading, rows).Some?
    ensures LoadAll(reading, altered) == LoadAll(reading, rows) ==>
              Accepted(TextRules(h, floatText, unsafeReason), reading, altered, count, head)
    ensures Accepted(TextRules(h, floatText, unsafeReason), reading, altered, count, head) ==>
              LoadAll(reading, altered).Some?
              && (LoadAll(reading, altered) == LoadAll(reading, rows)
                  || EventsClash(h, LoadAll(reading, rows).value, LoadAll(reading, altered).value))
  {
    var rules := TextRules(h, floatText, unsafeReason);
    hide Accepted, Load, LoadAll, Inspect, EventText, Clash, PyInt;
    AcceptedMeans(rules, reading, rows, count, head);
    AcceptedMeans(rules, reading, altered, count, head);
    if Accepted(rules, reading, altered, count, head) {
      ChainCommits(h, floatText, unsafeReason, LoadAll(reading, rows).value, LoadAll(reading, altered).value, |rows|,
                   head);
    }
  }

  ghost predicate AllWritten(rows: seq<StoredEvent>) {
    forall i | 0 <= i < |rows| :: AsWritten(rows[i])
  }

  /**
   For a trail the repository wrote, an accepted replacement is the trail itself exactly when
   every replacing row has a printed time and an integer number - unless two hashed texts clash.
   */
  lemma StoredTrailCommits(h: string -> Digest, floatText: real -> string, unsafeReason: string -> bool,
                           reading: Reading,
                           rows: seq<StoredEvent>, altered: seq<StoredEvent>, count: Cell, head: Digest)
    requires Inverts(reading.iso) && AllWritten(rows)
    requires Accepted(TextRules(h, floatText, unsafeReason), reading, rows, count, head)
    requires Accepted(TextRules(h, floatText, unsafeReason), reading, altered, count, head)
    ensures LoadAll(reading, rows).Some? && LoadAll(reading, altered).Some?
    ensures (altered == rows <==>
                AllWritten(altered)) || EventsClash(h, LoadAll(reading, rows).value, LoadAll(reading, altered).value)
  {
    hide Accepted, AsWritten, Load, EventsClash, Store;
    UnnoticedMeansSameEvents(h, floatText, unsafeReason, reading, rows, altered, count, head);
    if LoadAll(reading, altered) == LoadAll(reading, rows) && AllWritten(altered) {
      var events := LoadAll(reading, rows).value;
      forall i | 0 <= i < |rows| ensures rows[i] == altered[i] {
        OnlyWrittenRow(reading, rows[i], events[i]);
        OnlyWrittenRow(reading, altered[i], events[i]);
      }
    }
  }

  /** One unnoticed family: writing the `Z` of any stored time as `+00:00`. */
  lemma RespelledTimestampUnnoticed(reading: Reading, e: AuditEvent)
    requires Inverts(reading.iso)
    ensures var r := Store(e).(time := IsoFormat(e.payload.at));
            r != Store(e) && Load(reading, r) == Some(e) && !AsWritten(r)
  {
    var r := Store(e).(time := IsoFormat(e.payload.at));
    OtherSpelling(e.payload.at);
    PrintedReadBack(reading.iso, e.payload.at);
    PrintedTimeMeans(reading, r);
    hide IsoFormat, DatetimeText, ReadTime, PrintedTime;
  }

  /** The other: adding a fraction to any stored number, which is cut off when the row is read. */
  lemma FractionalNumberUnnoticed(reading: Reading, e: AuditEvent)
    requires Inverts(reading.iso) && e.payload.sequence >= 1
    ensures var r := Store(e).(sequence := Real(e.payload.sequence as real + 0.5));
            r != Store(e) && Load(reading, r) == Some(e) && !AsWritten(r)
  {
    StoredRoundTrip(reading, e);
    hide DatetimeText, ReadTime;
    assert (e.payload.sequence as real + 0.5).Floor == e.payload.sequence;
  }

  /** The stored count is cut off in the same way. */
  lemma FractionalCountUnnoticed(rules: Rules, reading: Reading, rows: seq<StoredEvent>, head: Digest)
    ensures Accepted(rules, reading, rows, Real(|rows| as real + 0.5), head) <==>
              Accepted(rules, reading, rows, Integer(|rows|), head)
  {
    hide StoredScan;
    assert (|rows| as real + 0.5).Floor == |rows|;
  }
}
