/**
 The security audit log: one chain for the whole database, whose length and head sit in a
 single state row.  The repository's verifier and the migration's verifier are two separate
 loops over the same rows; both are modelled and compared.
 */
module SecurityAudit {
  import opened Prelude
  import opened Records
  import opened Json
  import opened Encoding
  import opened Cells

  // ---------------------------------------------------------------- rows

  datatype SecurityPayload = SecurityPayload(
    actor: Option<string>, id: string, kind: string, at: string, operation: string, outcome: string,
    request: string, role: Option<string>)

  datatype SecurityRow = SecurityRow(payload: SecurityPayload, sequence: Cell, prev: Digest, hash: Digest)

  datatype Head = Head(count: Cell, hash: Digest)

  /** The event rows in `ORDER BY sequence_number`, and the state row if there is one. */
  datatype SecurityLog = SecurityLog(rows: seq<SecurityRow>, head: Option<Head>)

  const EMPTY_LOG := SecurityLog([], Some(Head(Integer(0), GENESIS)))

  function SecurityFields(p: SecurityPayload, sequence: int): seq<Field> {
    [("actor_id", Optional(p.actor)),
     ("audit_event_id", Str(p.id)),
     ("event_type", Str(p.kind)),
     ("occurred_at", Str(p.at)),
     ("operation", Str(p.operation)),
     ("outcome", Str(p.outcome)),
     ("request_id", Str(p.request)),
     ("role", Optional(p.role)),
     ("sequence_number", Int(sequence))]
  }

  function SecurityText(p: SecurityPayload, sequence: int, prev: Digest): string {
    Text(Obj(SecurityFields(p, sequence))) + prev
  }

  // ---------------------------------------------------------------- the repository's verifier

  function Links(h: string -> Digest, rows: seq<SecurityRow>, k: nat, previous: Digest): Option<Digest>
    requires k <= |rows|
    decreases |rows| - k
  {
    if k == |rows| then Some(previous)
    else
      var r := rows[k];
      var expected := h(SecurityText(r.payload, k + 1, previous));
      if !Equals(r.sequence, k + 1) || previous != r.prev || expected != r.hash then None
      else Links(h, rows, k + 1, r.hash)
  }

  predicate Verified(h: string -> Digest, log: SecurityLog) {
    var links := Links(h, log.rows, 0, GENESIS);
    links.Some? && log.head.Some? && Equals(log.head.value.count, |log.rows|) && links.value == log.head.value.hash
  }

  method Verify(h: string -> Digest, log: SecurityLog) returns (ok: bool)
    ensures ok == Verified(h, log)
  {
    var previous := GENESIS;
    for k := 0 to |log.rows|
      invariant Links(h, log.rows, 0, GENESIS) == Links(h, log.rows, k, previous)
    {
      var r := log.rows[k];
      var expected := h(SecurityText(r.payload, k + 1, previous));
      if !Equals(r.sequence, k + 1) || previous != r.prev || expected != r.hash {
        return false;
      }
      previous := r.hash;
    }
    return log.head.Some? && Equals(log.head.value.count, |log.rows|) && previous == log.head.value.hash;
  }

  // ---------------------------------------------------------------- what it accepts

  function LinkBefore(rows: seq<SecurityRow>, i: nat): Digest
    requires i <= |rows|
  {
    if i == 0 then GENESIS else rows[i - 1].hash
  }

  ghost predicate RowLinked(h: string -> Digest, rows: seq<SecurityRow>, i: nat)
    requires i < |rows|
  {
    && Equals(rows[i].sequence, i + 1)
    && rows[i].prev == LinkBefore(rows, i)
    && rows[i].hash == h(SecurityText(rows[i].payload, i + 1, rows[i].prev))
  }

  lemma {:induction false} LinksAccepts(h: string -> Digest, rows: seq<SecurityRow>, k: nat)
    requires k <= |rows|
    ensures var r := Links(h, rows, k, LinkBefore(rows, k));
            && (r.Some? <==> forall i | k <= i < |rows| :: RowLinked(h, rows, i))
            && (r.Some? ==> r.value == LinkBefore(rows, |rows|))
    decreases |rows| - k
  {
    hide SecurityText;
    if k < |rows| {
      LinksAccepts(h, rows, k + 1);
      assert LinkBefore(rows, k + 1) == rows[k].hash;
      if forall i | k <= i < |rows| :: RowLinked(h, rows, i) {
        assert RowLinked(h, rows, k);
      }
    }
  }

  /**
   The log is accepted exactly when its rows are numbered 1..n, linked, and the state row says n and
   the last hash.
   */
  lemma VerifiedMeans(h: string -> Digest, log: SecurityLog)
    ensures Verified(h, log) <==>
            && (forall i | 0 <= i < |log.rows| :: RowLinked(h, log.rows, i))
            && log.head.Some? && Equals(log.head.value.count, |log.rows|)
            && log.head.value.hash == LinkBefore(log.rows, |log.rows|)
  {
    LinksAccepts(h, log.rows, 0);
  }

  lemma SecurityKeys(p: SecurityPayload, sequence: int)
    ensures DistinctKeys(SecurityFields(p, sequence)) && PlainFields(SecurityFields(p, sequence))
  {
  }

  lemma SecurityFieldsInjective(p: SecurityPayload, m: int, q: SecurityPayload, n: int)
    requires SecurityFields(p, m) == SecurityFields(q, n)
    ensures p == q && m == n
  {
    var f, g := SecurityFields(p, m), SecurityFields(q, n);
    assert f[0].1 == g[0].1 && f[1].1 == g[1].1 && f[2].1 == g[2].1 && f[3].1 == g[3].1 && f[4].1 == g[4].1;
    assert f[5].1 == g[5].1 && f[6].1 == g[6].1 && f[7].1 == g[7].1 && f[8].1 == g[8].1;
    OptionalInjective(p.actor, q.actor);
    OptionalInjective(p.role, q.role);
  }

  lemma SecurityTextCommits(p: SecurityPayload, m: int, d: Digest, q: SecurityPayload, n: int, e: Digest)
    requires SecurityText(p, m, d) == SecurityText(q, n, e)
    ensures p == q && m == n && d == e
  {
    var f, g := SecurityFields(p, m), SecurityFields(q, n);
    SecurityKeys(p, m);
    SecurityKeys(q, n);
    assert SameKeys(f, g);
    hide SecurityFields, Text, WellFormed, SameData, DistinctKeys, PlainFields, SameKeys;
    PlainWellFormed(f);
    PlainWellFormed(g);
    ChainedTextUnambiguous(Obj(f), d, Obj(g), e);
    PlainObjects(f, g);
    SecurityFieldsInjective(p, m, q, n);
  }

  predicate RowsClash(h: string -> Digest, a: seq<SecurityRow>, b: seq<SecurityRow>, i: int) {
    && 0 <= i < |a| && i < |b|
    && Clash(h, SecurityText(a[i].payload, i + 1, a[i].prev), SecurityText(b[i].payload, i + 1, b[i].prev))
  }

  /** The same columns, up to the spelling of the number. */
  predicate SameRow(r: SecurityRow, q: SecurityRow) {
    r.(sequence := q.sequence) == q
  }

  predicate SameRows(a: seq<SecurityRow>, b: seq<SecurityRow>, n: nat)
    requires n <= |a| && n <= |b|
  {
    forall i | 0 <= i < n :: SameRow(a[i], b[i])
  }

  lemma {:induction false} LinkedRowsCommit(h: string -> Digest, a: seq<SecurityRow>, b: seq<SecurityRow>, n: nat)
    requires n <= |a| && n <= |b| && LinkBefore(a, n) == LinkBefore(b, n)
    requires forall i | 0 <= i < n :: RowLinked(h, a, i) && RowLinked(h, b, i)
    ensures SameRows(a, b, n) || exists i :: RowsClash(h, a, b, i)
    decreases n
  {
    hide SecurityText, Equals;
    if n > 0 {
      assert RowLinked(h, a, n - 1) && RowLinked(h, b, n - 1);
      var x, y := a[n - 1], b[n - 1];
      if SecurityText(x.payload, n, x.prev) == SecurityText(y.payload, n, y.prev) {
        SecurityTextCommits(x.payload, n, x.prev, y.payload, n, y.prev);
        LinkedRowsCommit(h, a, b, n - 1);
      } else {
        assert RowsClash(h, a, b, n - 1);
      }
    }
  }

  /** The sequence column is declared INTEGER, as the repository declares it. */
  ghost predicate IntegerColumn(log: SecurityLog) {
    forall i | 0 <= i < |log.rows| :: log.rows[i].sequence.Real? ==> !Whole(log.rows[i].sequence)
  }

  /**
   Two accepted logs with the same state row have the same rows up to the spelling of whole
   numbers - the very same rows where the column is declared INTEGER - or two of their hashed
   texts clash.
   */
  lemma StateRowCommitsToLog(h: string -> Digest, a: SecurityLog, b: SecurityLog)
    requires Verified(h, a) && Verified(h, b) && a.head == b.head
    ensures (|a.rows| == |b.rows| && SameRows(a.rows, b.rows, |a.rows|)) || exists i :: RowsClash(h, a.rows, b.rows, i)
    ensures IntegerColumn(a) && IntegerColumn(b) ==> a == b || exists i :: RowsClash(h, a.rows, b.rows, i)
  {
    hide SecurityText, Links;
    VerifiedMeans(h, a);
    VerifiedMeans(h, b);
    LinkedRowsCommit(h, a.rows, b.rows, |a.rows|);
    if IntegerColumn(a) && IntegerColumn(b) && SameRows(a.rows, b.rows, |a.rows|) {
      forall i | 0 <= i < |a.rows| ensures a.rows[i] == b.rows[i] {
        assert RowLinked(h, a.rows, i) && RowLinked(h, b.rows, i) && SameRow(a.rows[i], b.rows[i]);
      }
    }
  }

  // ---------------------------------------------------------------- appending

  /** Integers and reals sort before texts. */
  predicate SortsAfter(c: Cell, n: int) {
    match c
    case Integer(m) => m > n
    case Real(x) => x > n as real
    case TextCell(_) => true
  }

  function InsertRow(rows: seq<SecurityRow>, r: SecurityRow): seq<SecurityRow>
    requires r.sequence.Integer?
  {
    if rows == [] || !SortsAfter(rows[|rows| - 1].sequence, r.sequence.n) then rows + [r]
    else InsertRow(rows[..|rows| - 1], r) + [rows[|rows| - 1]]
  }

  predicate Refused(rows: seq<SecurityRow>, id: string, sequence: int) {
    exists i | 0 <= i < |rows| :: rows[i].payload.id == id || Equals(rows[i].sequence, sequence)
  }

  /** One transaction: the event row and the state row, or nothing. */
  function Appended(h: string -> Digest, readInt: string -> Option<int>, log: SecurityLog,
                    p: SecurityPayload): Option<SecurityLog> {
    if log.head.None? then None
    else match PyInt(readInt, log.head.value.count) {
      case None => None
      case Some(count) =>
        if Refused(log.rows, p.id, count + 1) then None
        else
          var previous := log.head.value.hash;
          var r := SecurityRow(p, Integer(count + 1), previous, h(SecurityText(p, count + 1, previous)));
          Some(SecurityLog(InsertRow(log.rows, r), Some(Head(Integer(count + 1), r.hash))))
    }
  }

  predicate KnownId(log: SecurityLog, id: string) {
    exists i | 0 <= i < |log.rows| :: log.rows[i].payload.id == id
  }

  /** On an accepted log an append fails only for a repeated identifier, goes to the end, and is accepted again. */
  lemma AppendKeepsVerified(h: string -> Digest, readInt: string -> Option<int>, log: SecurityLog, p: SecurityPayload)
    requires Verified(h, log)
    ensures Appended(h, readInt, log, p).None? <==> KnownId(log, p.id)
    ensures Appended(h, readInt, log, p).Some? ==>
              var next := Appended(h, readInt, log, p).value;
              Verified(h, next) && |next.rows| == |log.rows| + 1 && next.rows[..|log.rows|] == log.rows
                && next.rows[|log.rows|].payload == p
  {
    hide SecurityText, Links;
    VerifiedMeans(h, log);
    var n := |log.rows|;
    forall i | 0 <= i < n ensures Equals(log.rows[i].sequence, i + 1) {
      assert RowLinked(h, log.rows, i);
    }
    if Appended(h, readInt, log, p).Some? {
      var next := Appended(h, readInt, log, p).value;
      assert next.rows == log.rows + [next.rows[n]];
      forall i | 0 <= i < n + 1 ensures RowLinked(h, next.rows, i) {
        if i < n {
          assert RowLinked(h, log.rows, i);
        }
      }
      VerifiedMeans(h, next);
    }
  }

  /** Appends one after the other; a refused one leaves the log alone. */
  function History(h: string -> Digest, readInt: string -> Option<int>, attempts: seq<SecurityPayload>): SecurityLog {
    if attempts == [] then EMPTY_LOG
    else
      var log := History(h, readInt, attempts[..|attempts| - 1]);
      match Appended(h, readInt, log, attempts[|attempts| - 1])
      case None => log
      case Some(next) => next
  }

  function FirstUses(attempts: seq<SecurityPayload>): seq<SecurityPayload> {
    if attempts == [] then []
    else
      var earlier := FirstUses(attempts[..|attempts| - 1]);
      var p := attempts[|attempts| - 1];
      if exists i | 0 <= i < |earlier| :: earlier[i].id == p.id then earlier else earlier + [p]
  }

  function Payloads(rows: seq<SecurityRow>): seq<SecurityPayload> {
    seq(|rows|, i requires 0 <= i < |rows| => rows[i].payload)
  }

  lemma KnownAmongPayloads(log: SecurityLog, id: string)
    ensures KnownId(log, id) <==> exists i | 0 <= i < |Payloads(log.rows)| :: Payloads(log.rows)[i].id == id
  {
    var payloads := Payloads(log.rows);
    if KnownId(log, id) {
      var i :| 0 <= i < |log.rows| && log.rows[i].payload.id == id;
      assert payloads[i].id == id;
    }
  }

  lemma PayloadsExtended(log: SecurityLog, next: SecurityLog, p: SecurityPayload)
    requires |next.rows| == |log.rows| + 1 && next.rows[..|log.rows|] == log.rows && next.rows[|log.rows|].payload == p
    ensures Payloads(next.rows) == Payloads(log.rows) + [p]
  {
    assert forall i | 0 <= i < |log.rows| :: next.rows[i] == next.rows[..|log.rows|][i];
  }

  /** After any appends the log is accepted and records, in order, every attempt whose identifier was new. */
  lemma {:induction false} HistoryIsVerified(h: string -> Digest, readInt: string -> Option<int>,
                                             attempts: seq<SecurityPayload>)
    ensures Verified(h, History(h, readInt, attempts))
    ensures Payloads(History(h, readInt, attempts).rows) == FirstUses(attempts)
    decreases |attempts|
  {
    if attempts != [] {
      var n := |attempts| - 1;
      var log := History(h, readInt, attempts[..n]);
      HistoryIsVerified(h, readInt, attempts[..n]);
      hide Verified, Appended, KnownId, Payloads;
      AppendKeepsVerified(h, readInt, log, attempts[n]);
      KnownAmongPayloads(log, attempts[n].id);
      if Appended(h, readInt, log, attempts[n]).Some? {
        PayloadsExtended(log, Appended(h, readInt, log, attempts[n]).value, attempts[n]);
      }
    } else {
      assert Verified(h, EMPTY_LOG);
    }
  }

  /** The repository: the two tables, changed in place by one committed transaction or not at all. */
  class SecurityAuditRepository {
    var rows: seq<SecurityRow>
    var state: Option<Head>
    const h: string -> Digest
    const readInt: string -> Option<int>

    constructor (h: string -> Digest, readInt: string -> Option<int>)
      ensures this.h == h && this.readInt == readInt && Log() == EMPTY_LOG
    {
      this.h := h;
      this.readInt := readInt;
      rows := [];
      state := Some(Head(Integer(0), GENESIS));
    }

    function Log(): SecurityLog
      reads this
    {
      SecurityLog(rows, state)
    }

    method Append(p: SecurityPayload) returns (ok: bool)
      modifies this
      ensures ok == Appended(h, readInt, old(Log()), p).Some?
      ensures Log() == if ok then Appended(h, readInt, old(Log()), p).value else old(Log())
      ensures old(Verified(h, Log())) ==> Verified(h, Log())
    {
      ghost var before := Log();
      if state.None? {
        return false;
      }
      var count := PyInt(readInt, state.value.count);
      if count.None? {
        return false;
      }
      var sequence := count.value + 1;
      var previous := state.value.hash;
      var hash := h(SecurityText(p, sequence, previous));
      var refused := false;
      for k := 0 to |rows|
        invariant refused <==> exists i | 0 <= i < k :: rows[i].payload.id == p.id || Equals(rows[i].sequence, sequence)
      {
        if rows[k].payload.id == p.id || Equals(rows[k].sequence, sequence) {
          refused := true;
        }
      }
      if refused {
        return false;
      }
      rows := InsertRow(rows, SecurityRow(p, Integer(sequence), previous, hash));
      state := Some(Head(Integer(sequence), hash));
      ok := true;
      assert Log() == Appended(h, readInt, before, p).value;
      if Verified(h, before) {
        AppendKeepsVerified(h, readInt, before, p);
      }
    }

    /** `verify` on the tables as they stand. */
    method VerifyLog() returns (ok: bool)
      ensures ok == Verified(h, Log())
    {
      ok := Verify(h, Log());
    }
  }

  // ---------------------------------------------------------------- the migration's verifier

  function MigrationLinks(h: string -> Digest, readInt: string -> Option<int>, rows: seq<SecurityRow>, k: nat,
                          previous: Digest): Option<Digest>
    requires k <= |rows|
    decreases |rows| - k
  {
    if k == |rows| then Some(previous)
    else
      var r := rows[k];
      if || PyInt(readInt, r.sequence) != Some(k + 1)
         || r.prev != previous
         || h(SecurityText(r.payload, k + 1, previous)) != r.hash
      then None
      else MigrationLinks(h, readInt, rows, k + 1, r.hash)
  }

  predicate MigrationAccepts(h: string -> Digest, readInt: string -> Option<int>, log: SecurityLog) {
    log.head.Some? &&
    var links := MigrationLinks(h, readInt, log.rows, 0, GENESIS);
    links.Some? && PyInt(readInt, log.head.value.count) == Some(|log.rows|) && links.value == log.head.value.hash
  }

  method MigrationVerify(h: string -> Digest, readInt: string -> Option<int>, log: SecurityLog) returns (ok: bool)
    ensures ok == MigrationAccepts(h, readInt, log)
  {
    if log.head.None? {
      return false;
    }
    var previous := GENESIS;
    for k := 0 to |log.rows|
      invariant MigrationLinks(h, readInt, log.rows, 0, GENESIS) == MigrationLinks(h, readInt, log.rows, k, previous)
    {
      var r := log.rows[k];
      if || PyInt(readInt, r.sequence) != Some(k + 1)
         || r.prev != previous
         || h(SecurityText(r.payload, k + 1, previous)) != r.hash
      {
        return false;
      }
      previous := r.hash;
    }
    return PyInt(readInt, log.head.value.count) == Some(|log.rows|) && previous == log.head.value.hash;
  }

  predicate WholeNumbers(log: SecurityLog) {
    && (log.head.Some? ==> Whole(log.head.value.count))
    && (forall i | 0 <= i < |log.rows| :: Whole(log.rows[i].sequence))
  }

  lemma {:induction false} LinksCompared(h: string -> Digest, readInt: string -> Option<int>, rows: seq<SecurityRow>,
                                         k: nat, previous: Digest)
    requires k <= |rows|
    ensures Links(h, rows, k, previous).Some? <==>
            MigrationLinks(h, readInt, rows, k, previous).Some? && forall i | k <= i < |rows| :: Whole(rows[i].sequence)
    ensures Links(h, rows, k, previous).Some? ==>
              Links(h, rows, k, previous) == MigrationLinks(h, readInt, rows, k, previous)
    decreases |rows| - k
  {
    hide SecurityText;
    if k < |rows| {
      EqualsIsWholeReading(readInt, rows[k].sequence, k + 1);
      hide Whole, PyInt, Equals;
      LinksCompared(h, readInt, rows, k + 1, rows[k].hash);
    }
  }

  /**
   The two verifiers do not agree on every table: the migration truncates numbers first.  The
   repository accepts exactly what the migration accepts and whose numbers are whole.
   */
  lemma VerifiersCompared(h: string -> Digest, readInt: string -> Option<int>, log: SecurityLog)
    ensures Verified(h, log) <==> MigrationAccepts(h, readInt, log) && WholeNumbers(log)
  {
    LinksCompared(h, readInt, log.rows, 0, GENESIS);
    if log.head.Some? {
      EqualsIsWholeReading(readInt, log.head.value.count, |log.rows|);
    }
    hide Whole, PyInt, Equals;
  }

  /** A one-event log whose sequence cell is 1.5: the migration archives it, the repository refuses it. */
  lemma TruncatedNumberDisagrees(h: string -> Digest, readInt: string -> Option<int>, p: SecurityPayload)
    ensures var r := SecurityRow(p, Real(1.5), GENESIS, h(SecurityText(p, 1, GENESIS)));
            var log := SecurityLog([r], Some(Head(Integer(1), r.hash)));
            MigrationAccepts(h, readInt, log) && !Verified(h, log)
  {
    hide SecurityText;
    var r := SecurityRow(p, Real(1.5), GENESIS, h(SecurityText(p, 1, GENESIS)));
    assert MigrationLinks(h, readInt, [r], 1, r.hash) == Some(r.hash);
    assert MigrationLinks(h, readInt, [r], 0, GENESIS) == Some(r.hash);
  }
}
