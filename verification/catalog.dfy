/**
 A database as the migration sees it: named tables with their columns and rows in `rowid` order,
 the names of its triggers, how a database family is recognised, and the content commitment.
 What SQL text, foreign keys and the archived applications' own rules say is left to `Checks`.
 */
module Catalog {
  import opened Prelude
  import opened Records
  import opened Json
  import opened Encoding

  /** A real is held as its shortest decimal text, a blob as a string of bytes. */
  datatype SqlValue = SqlNull | SqlInt(n: int) | SqlReal(lexeme: string) | SqlText(s: string) | SqlBlob(bytes: string)

  datatype Table = Table(columns: seq<string>, rows: seq<seq<SqlValue>>)

  datatype Database = Database(tables: map<string, Table>, triggers: set<string>)

  datatype Family = EmptyFamily | MainV8 | VerifiedUnversioned | ActiveV9

  datatype Checks = Checks(
    h: string -> Digest,
    blobHash: string -> Digest,
    readInt: SqlValue -> Option<int>,
    sourceTokens: (Database, Family) -> bool,
    activeTokens: Database -> bool,
    sourceIntegrity: (Database, Family) -> bool,
    foreignKeys: Database -> bool)

  const APPROVAL_COLUMNS := ["approval_id", "event_id", "event_type", "source", "policy_version", "decision", "action",
                             "risk",
    "confidence", "evidence_json", "status", "created_at", "expires_at", "decided_at", "approver_id",
    "rejection_reason",
    "provenance_json", "provenance_hash", "action_parameters_json", "audit_event_count", "audit_head_hash"]
  const MAIN_AUDIT_COLUMNS := ["audit_event_id", "approval_id", "sequence_number", "event_type", "execution_id",
                               "event_id",
    "failure_category", "commitment_hash", "status", "actor_id", "occurred_at", "previous_event_hash", "event_hash"]
  const VERIFIED_AUDIT_COLUMNS := ["audit_event_id", "approval_id", "sequence_number", "event_type", "execution_id",
                                   "event_id",
    "failure_category", "status", "actor_id", "occurred_at", "previous_event_hash", "event_hash"]
  const MAIN_EXECUTION_COLUMNS := ["execution_id", "approval_id", "event_id", "action", "status", "started_at",
                                   "completed_at",
    "result_code", "safe_summary", "actor_id", "failure_category", "action_parameters_hash", "effect_hash",
    "reconciled_at",
    "reconciler_id", "reconciliation_reason", "original_execution_hash", "reconciliation_hash", "integrity_hash"]
  const EXECUTION_COLUMNS := ["execution_id", "approval_id", "event_id", "action", "contact_id", "tag", "status",
                              "created_at",
    "claimed_at", "completed_at", "failure_category", "provenance_hash", "policy_version", "actor_id",
    "action_parameters_hash",
    "integrity_hash"]
  const EFFECT_COLUMNS := ["execution_id", "object_id", "object_type", "content", "created_at"]
  const SECURITY_STATE_COLUMNS := ["singleton", "event_count", "head_hash"]
  const SECURITY_EVENT_COLUMNS := ["audit_event_id", "sequence_number", "event_type", "actor_id", "role", "request_id",
    "operation", "outcome", "occurred_at", "previous_event_hash", "event_hash"]
  const METADATA_COLUMNS := ["singleton", "schema_version"]
  const HISTORY_COLUMNS := ["migration_id", "source_family", "target_version", "source_commitment", "backup_filename",
                            "completed_at"]
  const ASSESSMENT_COLUMNS := ["assessment_id", "execution_id", "approval_id", "provenance_hash", "policy_version",
    "original_execution_integrity_hash", "actor_id", "occurred_at", "declared_outcome", "reason",
    "previous_assessment_hash",
    "assessment_hash"]

  /** The tables a source database may have. */
  const SOURCE_NAMES := {"approvals", "approval_audit_events", "executions", "internal_action_effects",
                         "schema_metadata",
    "security_audit_state", "security_audit_events"}

  const ACTIVE_NAMES := {"schema_metadata", "migration_history", "approvals", "approval_audit_events", "executions",
    "execution_reconciliation_assessments"}

  // ---------------------------------------------------------------- recognising a family

  predicate HasColumns(db: Database, name: string, columns: seq<string>) {
    name in db.tables && db.tables[name].columns == columns
  }

  function ReadInt(checks: Checks, v: SqlValue): Option<int> {
    if v.SqlInt? then Some(v.n) else checks.readInt(v)
  }

  function SingletonRow(rows: seq<seq<SqlValue>>): Option<seq<SqlValue>> {
    if rows == [] then None
    else if |rows[0]| == 2 && rows[0][0] == SqlInt(1) then Some(rows[0])
    else SingletonRow(rows[1..])
  }

  /** The version a metadata table states; `None` when it cannot be read. */
  function SchemaVersion(checks: Checks, t: Table): Option<int> {
    match SingletonRow(t.rows)
    case None => None
    case Some(row) => if |row| == 2 then ReadInt(checks, row[1]) else None
  }

  /** A group of optional tables is there as a whole or not at all. */
  predicate WholeGroup(names: set<string>, group: set<string>) {
    names * group == {} || group <= names
  }

  predicate SourceShape(checks: Checks, db: Database, family: Family) {
    var names := db.tables.Keys;
    var executions := if family == MainV8 then {"executions", "internal_action_effects"} else {"executions"};
    var security := {"security_audit_state", "security_audit_events"};
    var metadata := if family == MainV8 then {"schema_metadata"} else {};
    var allowed := {"approvals", "approval_audit_events"} + metadata + executions + security;
    && WholeGroup(names, executions) && WholeGroup(names, security)
    && {"approvals", "approval_audit_events"} <= names <= allowed
    && HasColumns(db, "approvals", APPROVAL_COLUMNS)
    && HasColumns(db, "approval_audit_events", if family == MainV8 then MAIN_AUDIT_COLUMNS else VERIFIED_AUDIT_COLUMNS)
    && ("executions" in names ==>
           HasColumns(db, "executions", if family == MainV8 then MAIN_EXECUTION_COLUMNS else EXECUTION_COLUMNS))
    && ("internal_action_effects" in names ==> HasColumns(db, "internal_action_effects", EFFECT_COLUMNS))
    && ("security_audit_state" in names ==>
          HasColumns(db, "security_audit_state", SECURITY_STATE_COLUMNS)
            && HasColumns(db, "security_audit_events", SECURITY_EVENT_COLUMNS))
    && checks.sourceTokens(db, family)
  }

  /** `None` when the database is refused. */
  function Detect(checks: Checks, db: Database): Option<Family> {
    if db.tables.Keys == {} then Some(EmptyFamily)
    else if "schema_metadata" in db.tables then
      if db.tables["schema_metadata"].columns != METADATA_COLUMNS then None
      else match SchemaVersion(checks, db.tables["schema_metadata"]) {
        case None => None
        case Some(version) =>
          if version == 9 then Some(ActiveV9)
          else if version == 8 && SourceShape(checks, db, MainV8) then Some(MainV8)
          else None
      }
    else if SourceShape(checks, db, VerifiedUnversioned) then Some(VerifiedUnversioned)
    else None
  }

  /** A detected source has no table but the known ones, and has its approvals. */
  lemma DetectedNames(checks: Checks, db: Database)
    requires Detect(checks, db) in {Some(MainV8), Some(VerifiedUnversioned)}
    ensures db.tables.Keys <= SOURCE_NAMES && "approvals" in db.tables
    ensures Detect(checks, db) == Some(MainV8) <==> "schema_metadata" in db.tables
    ensures Detect(checks, db) == Some(VerifiedUnversioned) ==> "internal_action_effects" !in db.tables
  {
    if Detect(checks, db) == Some(VerifiedUnversioned) {
      assert "schema_metadata" !in db.tables.Keys;
    }
  }

  /**
   Which database is which family: nothing at all; a metadata table saying 9; one saying 8; or
   none.  A source has approvals and their events with their own columns, and of executions and
   of the security log either all tables or no table.
   */
  lemma DetectedShape(checks: Checks, db: Database)
    ensures Detect(checks, db) == Some(EmptyFamily) <==> db.tables == map[]
    ensures Detect(checks, db) == Some(ActiveV9) <==>
            && "schema_metadata" in db.tables && db.tables["schema_metadata"].columns == ["singleton", "schema_version"]
            && SchemaVersion(checks, db.tables["schema_metadata"]) == Some(9)
    ensures Detect(checks, db) == Some(MainV8) ==>
            && "schema_metadata" in db.tables && SchemaVersion(checks, db.tables["schema_metadata"]) == Some(8)
            && ("executions" in db.tables <==> "internal_action_effects" in db.tables)
            && HasColumns(db, "approval_audit_events", MAIN_AUDIT_COLUMNS)
            && ("executions" in db.tables ==> HasColumns(db, "executions", MAIN_EXECUTION_COLUMNS))
    ensures Detect(checks, db) == Some(VerifiedUnversioned) ==>
            && "schema_metadata" !in db.tables && "internal_action_effects" !in db.tables
            && HasColumns(db, "approval_audit_events", VERIFIED_AUDIT_COLUMNS)
            && ("executions" in db.tables ==> HasColumns(db, "executions", EXECUTION_COLUMNS))
    ensures Detect(checks, db) in {Some(MainV8), Some(VerifiedUnversioned)} ==>
            && HasColumns(db, "approvals", APPROVAL_COLUMNS) && checks.sourceTokens(db, Detect(checks, db).value)
            && ("security_audit_state" in db.tables <==> "security_audit_events" in db.tables)
  {
    var names := db.tables.Keys;
    assert forall n :: n in names <==> n in db.tables;
    hide SchemaVersion;
    if db.tables != map[] {
      assert names != {};
    }
    if names != {} && ("schema_metadata" in db.tables ==> SourceShape(checks, db, MainV8)) {
      Grouped(names, {"executions", "internal_action_effects"}, "executions", "internal_action_effects");
      Grouped(names, {"security_audit_state", "security_audit_events"}, "security_audit_state",
              "security_audit_events");
    }
  }

  lemma Grouped(names: set<string>, group: set<string>, a: string, b: string)
    requires a in group && b in group
    ensures WholeGroup(names, group) ==> (a in names <==> b in names)
  {
    assert a in names ==> a in names * group;
    assert b in names ==> b in names * group;
  }

  // ---------------------------------------------------------------- sorted names

  lemma {:induction false} LeastName(s: set<string>)
    requires s != {}
    ensures exists x | x in s :: forall y | y in s :: y == x || KeyLess(x, y)
    decreases |s|
  {
    var a :| a in s;
    var rest := s - {a};
    if rest == {} {
      assert s == rest + {a};
    } else {
      LeastName(rest);
      var b :| b in rest && forall y | y in rest :: y == b || KeyLess(b, y);
      KeyLessTotal(a, b);
      if KeyLess(a, b) {
        forall y | y in s ensures y == a || KeyLess(a, y) {
          if y in rest && y != b {
            KeyLessTransitive(a, b, y);
          }
        }
      } else {
        assert forall y | y in s :: y == b || KeyLess(b, y);
      }
    }
  }

  lemma LeastUnique(s: set<string>)
    ensures forall x, z | x in s && z in s && (forall y | y in s ::
                y == x || KeyLess(x, y)) && (forall y | y in s :: y == z || KeyLess(z, y)) :: x == z
  {
    forall x, z | x in s && z in s && (forall y | y in s :: y == x || KeyLess(x, y)) && (forall y | y in s ::
        y == z || KeyLess(z, y))
      ensures x == z
    {
      KeyLessTotal(x, z);
    }
  }

  /** Python's `sorted` on a set of names. */
  function SortedNames(s: set<string>): seq<string>
    decreases |s|
  {
    if s == {} then []
    else
      LeastName(s);
      LeastUnique(s);
      var x :| x in s && forall y | y in s :: y == x || KeyLess(x, y);
      [x] + SortedNames(s - {x})
  }

  ghost predicate AscendingNames(s: seq<string>) {
    forall i, j | 0 <= i < j < |s| :: KeyLess(s[i], s[j])
  }

  lemma SortedFront(s: set<string>)
    requires s != {}
    ensures var r := SortedNames(s);
            && r != [] && r[0] in s && (forall y | y in s :: y == r[0] || KeyLess(r[0], y))
            && r == [r[0]] + SortedNames(s - {r[0]})
  {
    LeastName(s);
    LeastUnique(s);
  }

  lemma {:induction false} SortedNamesSorts(s: set<string>)
    ensures AscendingNames(SortedNames(s))
    ensures forall x :: x in SortedNames(s) <==> x in s
    decreases |s|
  {
    if s == {} {
      assert SortedNames(s) == [];
    } else {
      SortedFront(s);
      hide SortedNames, KeyLess;
      var r := SortedNames(s);
      var tail := SortedNames(s - {r[0]});
      SortedNamesSorts(s - {r[0]});
      forall i, j | 0 <= i < j < |r| ensures KeyLess(r[i], r[j]) {
        assert r[j] == tail[j - 1];
        if i == 0 {
          assert r[j] in tail;
        } else {
          assert r[i] == tail[i - 1];
        }
      }
    }
  }

  lemma {:induction false} AscendingNamesUnique(a: seq<string>, b: seq<string>)
    requires AscendingNames(a) && AscendingNames(b)
    requires forall x :: x in a <==> x in b
    ensures a == b
    decreases |a|
  {
    assert b != [] ==> b[0] in b;
    if a != [] {
      assert a[0] in b && (b != [] ==> b[0] in a);
      var i :| 0 <= i < |b| && b[i] == a[0];
      var j :| 0 <= j < |a| && a[j] == b[0];
      KeyLessTotal(a[0], b[0]);
      assert a[0] == b[0];
      forall x ensures x in a[1..] <==> x in b[1..] {
        TailNames(a, x);
        TailNames(b, x);
      }
      AscendingNamesUnique(a[1..], b[1..]);
    }
  }

  lemma TailNames(a: seq<string>, x: string)
    requires AscendingNames(a) && a != []
    ensures x in a[1..] <==> x in a && x != a[0]
  {
    KeyLessTotal(a[0], a[0]);
    if x in a[1..] {
      var i :| 0 <= i < |a| - 1 && a[1..][i] == x;
      assert KeyLess(a[0], a[i + 1]);
    }
    if x in a && x != a[0] {
      var i :| 0 <= i < |a| && a[i] == x;
      assert a[1..][i - 1] == x;
    }
  }

  // ---------------------------------------------------------------- legacy names

  function Joined(a: string, b: string): string {
    a + "_" + b
  }

  /** `legacy_main_v8` or `legacy_verified_unversioned`. */
  function PrefixOf(family: Family): string {
    Joined("legacy", if family == MainV8 then Joined("main", "v8") else Joined("verified", "unversioned"))
  }

  function Legacy(family: Family, name: string): string {
    Joined(PrefixOf(family), name)
  }

  /** The two prefixes, letter by letter. */
  lemma LegacyNames(name: string)
    ensures Legacy(MainV8, name) == "legacy_main_v8_" + name
    ensures Legacy(VerifiedUnversioned, name) == "legacy_verified_unversioned_" + name
  {
    assert "legacy" + "_" + ("main" + "_" + "v8") == "legacy_main_v8";
    assert "legacy_main_v8" + "_" == "legacy_main_v8_";
    assert "legacy" + "_" + ("verified" + "_" + "unversioned") == "legacy_verified_unversioned";
    assert "legacy_verified_unversioned" + "_" == "legacy_verified_unversioned_";
  }

  function LegacyAll(family: Family, names: seq<string>): (r: seq<string>)
    ensures |r| == |names| && forall i | 0 <= i < |r| :: r[i] == Legacy(family, names[i])
  {
    seq(|names|, i requires 0 <= i < |names| => Legacy(family, names[i]))
  }

  /** The last piece of `s.split("_", n)`. */
  function LastPiece(s: string, n: nat): string {
    if n == 0 || '_' !in s then s
    else if s[0] == '_' then LastPiece(s[1..], n - 1)
    else LastPiece(s[1..], n)
  }

  predicate StartsLegacy(s: string) {
    |s| >= 7 && s[..7] == "legacy_"
  }

  function CommitmentName(name: string): string {
    if StartsLegacy(name) then LastPiece(name, 3) else name
  }

  lemma JoinedAssociates(a: string, b: string, c: string)
    ensures Joined(Joined(a, b), c) == Joined(a, Joined(b, c))
  {
  }

  lemma {:induction false} PieceAfter(piece: string, rest: string, n: nat)
    requires '_' !in piece && n > 0
    ensures LastPiece(Joined(piece, rest), n) == LastPiece(rest, n - 1)
    decreases |piece|
  {
    var s := Joined(piece, rest);
    assert s[|piece|] == '_';
    if piece == "" {
      assert s[1..] == rest;
    } else {
      assert s[0] == piece[0] && s[0] in piece;
      assert s[1..] == Joined(piece[1..], rest);
      forall c | c in piece[1..] ensures c in piece {
      }
      PieceAfter(piece[1..], rest, n);
      assert '_' in s[1..] by { assert s[1..][|piece| - 1] == '_'; }
    }
  }

  lemma ThreePieces(b: string, c: string, name: string)
    requires '_' !in b && '_' !in c
    ensures CommitmentName(Joined(Joined("legacy", Joined(b, c)), name)) == name
  {
    var rest := Joined(b, Joined(c, name));
    assert Joined(Joined("legacy", Joined(b, c)), name) == Joined("legacy", rest) by {
      hide Joined;
      JoinedAssociates("legacy", Joined(b, c), name);
      JoinedAssociates(b, c, name);
    }
    assert Joined("legacy", rest)[..7] == "legacy_" by { hide LastPiece; }
    hide Joined;
    PieceAfter("legacy", rest, 3);
    PieceAfter(b, Joined(c, name), 2);
    PieceAfter(c, name, 1);
  }

  /** `split("_", 3)[-1]` undoes either prefix, whatever underscores the name itself has. */
  lemma PrefixUndone(family: Family, name: string)
    ensures CommitmentName(Legacy(family, name)) == name
  {
    hide Joined, CommitmentName;
    if family == MainV8 {
      ThreePieces("main", "v8", name);
    } else {
      ThreePieces("verified", "unversioned", name);
    }
  }

  lemma {:induction false} CommonPrefixOrder(p: string, a: string, b: string)
    ensures KeyLess(p + a, p + b) <==> KeyLess(a, b)
    decreases |p|
  {
    if p == "" {
      assert p + a == a && p + b == b;
    } else {
      assert (p + a)[1..] == p[1..] + a && (p + b)[1..] == p[1..] + b;
      CommonPrefixOrder(p[1..], a, b);
    }
  }

  /** Renaming keeps the order in which the tables are committed to. */
  lemma PrefixKeepsOrder(family: Family, names: seq<string>)
    requires AscendingNames(names)
    ensures AscendingNames(LegacyAll(family, names))
  {
    forall i, j | 0 <= i < j < |names| ensures KeyLess(Legacy(family, names[i]), Legacy(family, names[j])) {
      CommonPrefixOrder(PrefixOf(family) + "_", names[i], names[j]);
    }
  }

  /** Python's `sorted` on names without repetition. */
  function Sorted(names: seq<string>): seq<string> {
    SortedNames(set n | n in names)
  }

  lemma SortedSorts(names: seq<string>)
    ensures AscendingNames(Sorted(names))
    ensures forall x :: x in Sorted(names) <==> x in names
  {
    SortedNamesSorts(set n | n in names);
  }

  /** Sorting the renamed tables gives the sorted tables, renamed. */
  lemma SortedLegacy(family: Family, names: seq<string>)
    ensures Sorted(LegacyAll(family, names)) == LegacyAll(family, Sorted(names))
  {
    var renamed, sorted := LegacyAll(family, names), Sorted(names);
    hide Sorted, Legacy;
    SortedSorts(names);
    SortedSorts(renamed);
    PrefixKeepsOrder(family, sorted);
    forall x ensures x in Sorted(renamed) <==> x in LegacyAll(family, sorted) {
      if x in renamed {
        var i :| 0 <= i < |names| && renamed[i] == x;
        assert names[i] in sorted;
        var j :| 0 <= j < |sorted| && sorted[j] == names[i];
        assert LegacyAll(family, sorted)[j] == x;
      }
      if x in LegacyAll(family, sorted) {
        var j :| 0 <= j < |sorted| && LegacyAll(family, sorted)[j] == x;
        assert sorted[j] in names;
        var i :| 0 <= i < |names| && names[i] == sorted[j];
        assert renamed[i] == x;
      }
    }
    AscendingNamesUnique(Sorted(renamed), LegacyAll(family, sorted));
  }

  lemma LegacyInjective(family: Family, a: string, b: string)
    ensures Legacy(family, a) == Legacy(family, b) <==> a == b
  {
    PrefixUndone(family, a);
    PrefixUndone(family, b);
  }

  // ---------------------------------------------------------------- the content commitment

  function SqlJson(checks: Checks, v: SqlValue): Value {
    match v
    case SqlNull => Null
    case SqlInt(n) => Int(n)
    case SqlReal(lexeme) => Float(lexeme)
    case SqlText(s) => Str(s)
    case SqlBlob(bytes) => Obj([("bytes_sha256", Str(checks.blobHash(bytes)))])
  }

  function RowJson(checks: Checks, row: seq<SqlValue>): Value {
    Arr(seq(|row|, i requires 0 <= i < |row| => SqlJson(checks, row[i])))
  }

  function ColumnsJson(columns: seq<string>): Value {
    Arr(seq(|columns|, i requires 0 <= i < |columns| => Str(columns[i])))
  }

  function RowsJson(checks: Checks, rows: seq<seq<SqlValue>>): Value {
    Arr(seq(|rows|, i requires 0 <= i < |rows| => RowJson(checks, rows[i])))
  }

  function TableFields(checks: Checks, name: string, t: Table): seq<Field> {
    [("columns", ColumnsJson(t.columns)), ("rows", RowsJson(checks, t.rows)), ("table", Str(CommitmentName(name)))]
  }

  /** Finite reals have a decimal text; JSON refuses the others. */
  predicate Committable(t: Table) {
    forall i, j | 0 <= i < |t.rows| && 0 <= j < |t.rows[i]| :: t.rows[i][j].SqlReal? ==>
      FloatLexeme(t.rows[i][j].lexeme)
  }

  /** The tables a commitment query exists for. */
  predicate Queried(name: string) {
    || name in SOURCE_NAMES
    || (exists n | n in SOURCE_NAMES :: name == Legacy(MainV8, n))
    || (exists n | n in SOURCE_NAMES - {"internal_action_effects", "schema_metadata"} ::
           name == Legacy(VerifiedUnversioned, n))
  }

  /** The commitment's document; the given names are taken in sorted order. */
  function Document(checks: Checks, db: Database, names: seq<string>): Value
    requires forall i | 0 <= i < |names| :: names[i] in db.tables
  {
    Arr(seq(|names|, i requires 0 <= i < |names| => Obj(TableFields(checks, names[i], db.tables[names[i]]))))
  }

  predicate CanCommit(db: Database, names: seq<string>) {
    forall i | 0 <= i < |names| :: Queried(names[i]) && names[i] in db.tables && Committable(db.tables[names[i]])
  }

  /** `_database_commitment`, which sorts the names it is given; `None` when it raises. */
  function Commitment(checks: Checks, db: Database, names: seq<string>): Option<Digest> {
    var sorted := Sorted(names);
    if CanCommit(db, sorted) then Some(checks.h(Text(Document(checks, db, sorted)))) else None
  }

  /** Whether the tables can be committed to does not depend on the order of their names. */
  lemma CanCommitSorted(db: Database, names: seq<string>)
    ensures CanCommit(db, Sorted(names)) <==> CanCommit(db, names)
  {
    var sorted := Sorted(names);
    hide Queried, Committable, Sorted;
    SortedSorts(names);
    if CanCommit(db, sorted) {
      forall i | 0 <= i < |names|
        ensures Queried(names[i]) && names[i] in db.tables && Committable(db.tables[names[i]])
      {
        assert names[i] in sorted;
      }
    }
    if CanCommit(db, names) {
      forall i | 0 <= i < |sorted|
        ensures Queried(sorted[i]) && sorted[i] in db.tables && Committable(db.tables[sorted[i]])
      {
        assert sorted[i] in names;
      }
    }
  }

  // ---------------------------------------------------------------- what the commitment commits to

  predicate SameValue(checks: Checks, v: SqlValue, w: SqlValue) {
    v == w || (v.SqlBlob? && w.SqlBlob? && checks.blobHash(v.bytes) == checks.blobHash(w.bytes))
  }

  /** Equal columns, and equal rows up to blobs with the same digest. */
  ghost predicate SameTable(checks: Checks, t: Table, u: Table) {
    && t.columns == u.columns
    && |t.rows| == |u.rows|
    && forall i | 0 <= i < |t.rows| ::
         |t.rows[i]| == |u.rows[i]| && forall j | 0 <= j < |t.rows[i]| :: SameValue(checks, t.rows[i][j], u.rows[i][j])
  }

  lemma ValueCommits(checks: Checks, v: SqlValue, w: SqlValue)
    requires SameData(SqlJson(checks, v), SqlJson(checks, w))
    ensures SameValue(checks, v, w)
  {
    if v.SqlBlob? && w.SqlBlob? {
      var f, g := SqlJson(checks, v).fields, SqlJson(checks, w).fields;
      assert f[0].0 == "bytes_sha256" && g[0].0 == "bytes_sha256";
      FieldSame(f, g, 0);
      assert f[0].1 == Str(checks.blobHash(v.bytes)) && g[0].1 == Str(checks.blobHash(w.bytes));
    }
  }

  lemma RowCommits(checks: Checks, a: seq<SqlValue>, b: seq<SqlValue>)
    requires SameData(RowJson(checks, a), RowJson(checks, b))
    ensures |a| == |b| && forall j | 0 <= j < |a| :: SameValue(checks, a[j], b[j])
  {
    var x, y := RowJson(checks, a).items, RowJson(checks, b).items;
    forall j | 0 <= j < |a| ensures SameValue(checks, a[j], b[j]) {
      assert SameData(x[j], y[j]);
      ValueCommits(checks, a[j], b[j]);
    }
  }

  lemma TableParts(checks: Checks, name: string, t: Table)
    ensures var f := TableFields(checks, name, t);
            && |f| == 3 && DistinctKeys(f)
            && f[0] == ("columns", ColumnsJson(t.columns))
            && f[1] == ("rows", RowsJson(checks, t.rows))
            && f[2] == ("table", Str(CommitmentName(name)))
  {
  }

  lemma ColumnsCommit(a: seq<string>, b: seq<string>)
    requires SameData(ColumnsJson(a), ColumnsJson(b))
    ensures a == b
  {
    var x, y := ColumnsJson(a).items, ColumnsJson(b).items;
    assert |x| == |y|;
    forall i | 0 <= i < |a| ensures a[i] == b[i] {
      assert SameData(x[i], y[i]);
    }
  }

  lemma RowsCommit(checks: Checks, a: seq<seq<SqlValue>>, b: seq<seq<SqlValue>>)
    requires SameData(RowsJson(checks, a), RowsJson(checks, b))
    ensures |a| == |b|
    ensures forall i | 0 <= i < |a| ::
              |a[i]| == |b[i]| && forall j | 0 <= j < |a[i]| :: SameValue(checks, a[i][j], b[i][j])
  {
    hide RowJson, SameValue;
    var x, y := RowsJson(checks, a).items, RowsJson(checks, b).items;
    assert |x| == |y|;
    forall i | 0 <= i < |a|
      ensures |a[i]| == |b[i]| && forall j | 0 <= j < |a[i]| :: SameValue(checks, a[i][j], b[i][j])
    {
      assert SameData(x[i], y[i]);
      RowCommits(checks, a[i], b[i]);
    }
  }

  lemma TableCommits(checks: Checks, n: string, t: Table, m: string, u: Table)
    requires SameData(Obj(TableFields(checks, n, t)), Obj(TableFields(checks, m, u)))
    ensures CommitmentName(n) == CommitmentName(m) && SameTable(checks, t, u)
  {
    var f, g := TableFields(checks, n, t), TableFields(checks, m, u);
    TableParts(checks, n, t);
    TableParts(checks, m, u);
    hide TableFields, RowsJson, ColumnsJson, CommitmentName, DistinctKeys, SameData, SameValue;
    assert SameKeys(f, g);
    hide SameKeys;
    FieldSame(f, g, 0);
    FieldSame(f, g, 1);
    FieldSame(f, g, 2);
    ColumnsCommit(t.columns, u.columns);
    RowsCommit(checks, t.rows, u.rows);
  }

  lemma RowWellFormed(checks: Checks, row: seq<SqlValue>)
    requires forall j | 0 <= j < |row| :: row[j].SqlReal? ==> FloatLexeme(row[j].lexeme)
    ensures WellFormed(RowJson(checks, row))
  {
    forall j | 0 <= j < |row| ensures WellFormed(SqlJson(checks, row[j])) {
    }
  }

  lemma TableWellFormed(checks: Checks, name: string, t: Table)
    requires Committable(t)
    ensures WellFormed(Obj(TableFields(checks, name, t)))
  {
    var f := TableFields(checks, name, t);
    TableParts(checks, name, t);
    hide TableFields, CommitmentName;
    forall i | 0 <= i < |t.rows| ensures WellFormed(RowJson(checks, t.rows[i])) {
      RowWellFormed(checks, t.rows[i]);
    }
    hide RowJson;
    var items := f[1].1.items;
    forall i | 0 <= i < |items| ensures WellFormed(items[i]) {
      assert items[i] == RowJson(checks, t.rows[i]);
    }
    assert WellFormed(Arr(items));
    assert WellFormed(f[0].1) && WellFormed(f[1].1) && WellFormed(f[2].1);
  }

  lemma DocumentWellFormed(checks: Checks, db: Database, names: seq<string>)
    requires CanCommit(db, names)
    ensures WellFormed(Document(checks, db, names))
  {
    forall i | 0 <= i < |names| ensures WellFormed(Obj(TableFields(checks, names[i], db.tables[names[i]]))) {
      TableWellFormed(checks, names[i], db.tables[names[i]]);
    }
    hide TableFields, Queried, Committable;
  }

  ghost predicate SameContents(checks: Checks, db: Database, names: seq<string>, db': Database, names': seq<string>)
    requires CanCommit(db, names) && CanCommit(db', names')
  {
    && |names| == |names'|
    && forall i | 0 <= i < |names| ::
         CommitmentName(names[i]) == CommitmentName(names'[i])
           && SameTable(checks, db.tables[names[i]], db'.tables[names'[i]])
  }

  /** The text a commitment is the hash of. */
  function CommittedText(checks: Checks, db: Database, names: seq<string>): string
    requires CanCommit(db, Sorted(names))
  {
    Text(Document(checks, db, Sorted(names)))
  }

  /** Equal commitments mean equal names, columns and rows, or the two committed texts clash. */
  lemma CommitmentCommits(checks: Checks, db: Database, names: seq<string>, db': Database, names': seq<string>)
    requires CanCommit(db, Sorted(names)) && CanCommit(db', Sorted(names'))
    requires Commitment(checks, db, names) == Commitment(checks, db', names')
    ensures || SameContents(checks, db, Sorted(names), db', Sorted(names'))
            || Clash(checks.h, CommittedText(checks, db, names), CommittedText(checks, db', names'))
  {
    hide Sorted;
    DocumentsCommit(checks, db, Sorted(names), db', Sorted(names'));
  }

  lemma DocumentsCommit(checks: Checks, db: Database, names: seq<string>, db': Database, names': seq<string>)
    requires CanCommit(db, names) && CanCommit(db', names')
    ensures Text(Document(checks, db, names)) == Text(Document(checks, db', names')) ==>
              SameContents(checks, db, names, db', names')
  {
    var d, d' := Document(checks, db, names), Document(checks, db', names');
    if Text(d) == Text(d') {
      DocumentWellFormed(checks, db, names);
      DocumentWellFormed(checks, db', names');
      TextDecidesSameData(d, d');
      hide Queried, Committable, TableFields, Text, WellFormed;
      assert |names| == |names'|;
      forall i | 0 <= i < |names|
        ensures CommitmentName(names[i]) == CommitmentName(names'[i])
        ensures SameTable(checks, db.tables[names[i]], db'.tables[names'[i]])
      {
        assert SameData(d.items[i], d'.items[i]);
        TableCommits(checks, names[i], db.tables[names[i]], names'[i], db'.tables[names'[i]]);
      }
    }
  }

  lemma RenamedDocument(checks: Checks, db: Database, db': Database, family: Family, names: seq<string>)
    requires forall i | 0 <= i < |names| :: names[i] in db.tables && !StartsLegacy(names[i])
    requires forall i | 0 <= i < |names| ::
               Legacy(family, names[i]) in db'.tables && db'.tables[Legacy(family, names[i])] == db.tables[names[i]]
    ensures Document(checks, db, names) == Document(checks, db', LegacyAll(family, names))
  {
    var archived := LegacyAll(family, names);
    forall i | 0 <= i < |names|
      ensures TableFields(checks, names[i], db.tables[names[i]]) == TableFields(checks, archived[i],
                                                                                db'.tables[archived[i]])
    {
      PrefixUndone(family, names[i]);
    }
    hide TableFields, Legacy;
    assert Document(checks, db, names).items == Document(checks, db', archived).items;
  }

  /** Tables that moved under a common legacy prefix. */
  ghost predicate SameUnderPrefix(db: Database, db': Database, family: Family, names: seq<string>) {
    forall n | n in names ::
      && n in db.tables && !StartsLegacy(n)
      && Legacy(family, n) in db'.tables && db'.tables[Legacy(family, n)] == db.tables[n]
  }

  /**
   Renaming is invisible: the tables before, sorted, and the renamed tables, sorted again, have
   the same commitment document.
   */
  lemma RenamingInvisible(checks: Checks, db: Database, db': Database, family: Family, names: seq<string>)
    requires SameUnderPrefix(db, db', family, names)
    ensures forall n | n in Sorted(names) :: n in db.tables
    ensures forall n | n in Sorted(LegacyAll(family, names)) :: n in db'.tables
    ensures Document(checks, db, Sorted(names)) == Document(checks, db', Sorted(LegacyAll(family, names)))
  {
    var sorted := Sorted(names);
    hide Legacy, StartsLegacy, Sorted;
    SortedSorts(names);
    SortedLegacy(family, names);
    forall i | 0 <= i < |sorted|
      ensures sorted[i] in db.tables && !StartsLegacy(sorted[i])
      ensures Legacy(family, sorted[i]) in db'.tables && db'.tables[Legacy(family, sorted[i])] == db.tables[sorted[i]]
    {
      assert sorted[i] in names;
    }
    hide Document;
    RenamedDocument(checks, db, db', family, sorted);
  }
}
