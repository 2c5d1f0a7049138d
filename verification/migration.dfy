/**
 The migration itself: what one exclusive transaction does to the database it finds, the same
 transaction run statement by statement with rollback, and what success and failure leave behind.
 */
module Migration {
  import opened Prelude
  import opened Records
  import opened Json
  import opened Catalog

  /** What was read before the exclusive transaction began. */
  datatype Plan = Plan(family: Family, names: seq<string>, commitment: Option<Digest>)

  /** What the history row needs besides the plan. */
  datatype Entry = Entry(id: string, backup: Option<string>, at: string)

  // ---------------------------------------------------------------- archiving

  type Tables = map<string, Table>

  function Rename(tables: Tables, source: string, target: string): Option<Tables> {
    if source !in tables || target in tables then None
    else Some((tables - {source})[target := tables[source]])
  }

  function RenameAll(tables: Tables, family: Family, names: seq<string>): Option<Tables>
    decreases names
  {
    if names == [] then Some(tables)
    else match Rename(tables, names[0], Legacy(family, names[0]))
      case None => None
      case Some(next) => RenameAll(next, family, names[1..])
  }

  function DenyTriggers(table: string): set<string> {
    {table + "_deny_insert", table + "_deny_update", table + "_deny_delete"}
  }

  /** Three triggers for each archived table; an existing name is refused. */
  function Protect(triggers: set<string>, family: Family, names: seq<string>): Option<set<string>>
    decreases names
  {
    if names == [] then Some(triggers)
    else
      var added := DenyTriggers(Legacy(family, names[0]));
      if triggers * added != {} then None else Protect(triggers + added, family, names[1..])
  }

  function Archive(db: Database, family: Family, names: seq<string>): Option<Database> {
    match RenameAll(db.tables, family, names)
    case None => None
    case Some(tables) =>
      match Protect(db.triggers, family, names)
      case None => None
      case Some(triggers) => Some(Database(tables, triggers))
  }

  // ---------------------------------------------------------------- the active schema

  const ACTIVE_TRIGGERS := {"execution_reconciliation_assessments_deny_update",
                            "execution_reconciliation_assessments_deny_delete"}

  const ACTIVE_TABLES: Tables := map[
    "schema_metadata" := Table(METADATA_COLUMNS, [[SqlInt(1), SqlInt(9)]]),
    "migration_history" := Table(HISTORY_COLUMNS, []),
    "approvals" := Table(APPROVAL_COLUMNS, []),
    "approval_audit_events" := Table(MAIN_AUDIT_COLUMNS, []),
    "executions" := Table(EXECUTION_COLUMNS, []),
    "execution_reconciliation_assessments" := Table(ASSESSMENT_COLUMNS, [])]

  function CreateActive(db: Database): Option<Database> {
    if db.tables.Keys * ACTIVE_NAMES != {} || db.triggers * ACTIVE_TRIGGERS != {} then None
    else Some(Database(db.tables + ACTIVE_TABLES, db.triggers + ACTIVE_TRIGGERS))
  }

  function FamilyText(family: Family): string {
    match family
    case EmptyFamily => "EMPTY"
    case MainV8 => "MAIN_V8"
    case VerifiedUnversioned => "VERIFIED_UNVERSIONED"
    case ActiveV9 => "ACTIVE_V9"
  }

  function OptionalText(s: Option<string>): SqlValue {
    match s
    case None => SqlNull
    case Some(text) => SqlText(text)
  }

  function HistoryRow(plan: Plan, entry: Entry): seq<SqlValue> {
    [SqlText(entry.id), SqlText(FamilyText(plan.family)), SqlInt(9), OptionalText(plan.commitment),
     OptionalText(entry.backup), SqlText(entry.at)]
  }

  function Recorded(db: Database, plan: Plan, entry: Entry): Database
    requires "migration_history" in db.tables
  {
    var history := db.tables["migration_history"];
    db.(tables := db.tables["migration_history" := history.(rows := history.rows + [HistoryRow(plan, entry)])])
  }

  predicate ActiveShape(checks: Checks, db: Database) {
    && ACTIVE_NAMES <= db.tables.Keys
    && SchemaVersion(checks, db.tables["schema_metadata"]) == Some(9)
    && HasColumns(db, "approvals", APPROVAL_COLUMNS)
    && HasColumns(db, "approval_audit_events", MAIN_AUDIT_COLUMNS)
    && HasColumns(db, "executions", EXECUTION_COLUMNS)
    && HasColumns(db, "execution_reconciliation_assessments", ASSESSMENT_COLUMNS)
    && checks.activeTokens(db)
    && ACTIVE_TRIGGERS <= db.triggers
  }

  /** The archived tables must still commit to what was read from the source. */
  predicate ContentKept(checks: Checks, plan: Plan, db: Database) {
    plan.family == EmptyFamily || (plan.commitment.Some?
                                   && Commitment(checks, db, LegacyAll(plan.family, plan.names)) == plan.commitment)
  }

  /** The state between archiving and the last checks. */
  function Installed(plan: Plan, db: Database, entry: Entry): Option<Database> {
    match (if plan.family == EmptyFamily then Some(db) else Archive(db, plan.family, plan.names))
    case None => None
    case Some(archived) =>
      match CreateActive(archived)
      case None => None
      case Some(created) => Some(Recorded(created, plan, entry))
  }

  /** The exclusive transaction; `None` when any statement or check fails and everything is rolled back. */
  function Migrated(checks: Checks, plan: Plan, db: Database, entry: Entry): Option<Database> {
    match Installed(plan, db, entry)
    case None => None
    case Some(recorded) =>
      if ContentKept(checks, plan, recorded) && ActiveShape(checks, recorded) && checks.foreignKeys(recorded)
      then Some(recorded) else None
  }

  // ---------------------------------------------------------------- the transaction, statement by statement

  /** Where the process may be stopped between statements. */
  datatype Fault = AfterArchive | BeforeCommit

  predicate Interrupted(plan: Plan, fault: Option<Fault>) {
    fault == Some(BeforeCommit) || (fault == Some(AfterArchive) && plan.family != EmptyFamily)
  }

  /** The names under which the tables of a family are archived. */
  function ArchiveName(family: Family, name: string): string
    requires family in {MainV8, VerifiedUnversioned}
  {
    match family
    case MainV8 => "legacy_main_v8_" + name
    case VerifiedUnversioned => "legacy_verified_unversioned_" + name
  }

  class Connection {
    var tables: Tables
    var triggers: set<string>

    constructor (db: Database)
      ensures Found() == db
    {
      tables, triggers := db.tables, db.triggers;
    }

    function Found(): Database
      reads this
    {
      Database(tables, triggers)
    }

    method RenameTables(family: Family, names: seq<string>) returns (ok: bool)
      modifies this`tables
      ensures ok == RenameAll(old(tables), family, names).Some?
      ensures ok ==> tables == RenameAll(old(tables), family, names).value
      ensures ok && SourceNames(names) && family in {MainV8, VerifiedUnversioned} ==>
                forall n | n in names ::
                  && n in old(tables) && n !in tables && ArchiveName(family, n) in tables
                  && tables[ArchiveName(family, n)] == old(tables)[n]
    {
      for i := 0 to |names|
        invariant RenameAll(old(tables), family, names) == RenameAll(tables, family, names[i..])
      {
        assert names[i..][0] == names[i] && names[i..][1..] == names[i + 1..];
        var target := Legacy(family, names[i]);
        if names[i] !in tables || target in tables {
          return false;
        }
        var moved := tables[names[i]];
        tables := (tables - {names[i]})[target := moved];
      }
      ghost var found := old(tables);
      assert RenameAll(found, family, names) == Some(tables);
      if SourceNames(names) && family in {MainV8, VerifiedUnversioned} {
        RenamedByName(found, family, names);
      }
      return true;
    }

    method ProtectTables(family: Family, names: seq<string>) returns (ok: bool)
      modifies this`triggers
      ensures ok == Protect(old(triggers), family, names).Some?
      ensures ok ==> triggers == Protect(old(triggers), family, names).value
    {
      for i := 0 to |names|
        invariant Protect(old(triggers), family, names) == Protect(triggers, family, names[i..])
      {
        assert names[i..][0] == names[i] && names[i..][1..] == names[i + 1..];
        var added := DenyTriggers(Legacy(family, names[i]));
        if triggers * added != {} {
          return false;
        }
        triggers := triggers + added;
      }
      return true;
    }

    method ArchiveSource(family: Family, names: seq<string>, fault: Option<Fault>) returns (ok: bool)
      modifies this
      ensures ok == (fault != Some(AfterArchive) && Archive(old(Found()), family, names).Some?)
      ensures ok ==> Found() == Archive(old(Found()), family, names).value
    {
      var renamed := RenameTables(family, names);
      if !renamed {
        return false;
      }
      if fault == Some(AfterArchive) {
        return false;
      }
      ok := ProtectTables(family, names);
    }

    method InstallActive(plan: Plan, entry: Entry) returns (ok: bool)
      modifies this
      ensures ok == CreateActive(old(Found())).Some?
      ensures ok ==> Found() == Recorded(CreateActive(old(Found())).value, plan, entry)
    {
      if tables.Keys * ACTIVE_NAMES != {} || triggers * ACTIVE_TRIGGERS != {} {
        return false;
      }
      tables := tables + ACTIVE_TABLES;
      triggers := triggers + ACTIVE_TRIGGERS;
      var history := tables["migration_history"];
      tables := tables["migration_history" := history.(rows := history.rows + [HistoryRow(plan, entry)])];
      return true;
    }

    method Statements(checks: Checks, plan: Plan, entry: Entry, fault: Option<Fault>) returns (ok: bool)
      modifies this
      ensures ok == (!Interrupted(plan, fault) && Migrated(checks, plan, old(Found()), entry).Some?)
      ensures ok ==> Found() == Migrated(checks, plan, old(Found()), entry).value
    {
      hide ContentKept, ActiveShape, Archive, CreateActive, Recorded;
      if plan.family != EmptyFamily {
        ok := ArchiveSource(plan.family, plan.names, fault);
        if !ok {
          return false;
        }
      }
      ok := InstallActive(plan, entry);
      if !ok {
        return false;
      }
      if !ContentKept(checks, plan, Found()) || !ActiveShape(checks, Found()) || !checks.foreignKeys(Found()) {
        return false;
      }
      return fault != Some(BeforeCommit);
    }

    /** Rolls back on every failure: what is found afterwards is either untouched or fully migrated. */
    method Migrate(checks: Checks, plan: Plan, entry: Entry, fault: Option<Fault>) returns (ok: bool)
      modifies this
      ensures ok == (!Interrupted(plan, fault) && Migrated(checks, plan, old(Found()), entry).Some?)
      ensures Found() == if ok then Migrated(checks, plan, old(Found()), entry).value else old(Found())
    {
      var tables0, triggers0 := tables, triggers;
      ok := Statements(checks, plan, entry, fault);
      if !ok {
        tables, triggers := tables0, triggers0;
      }
    }
  }

  // ---------------------------------------------------------------- what success leaves

  /** Source names are distinct and none of them is a legacy name already. */
  ghost predicate SourceNames(names: seq<string>) {
    && (forall i, j | 0 <= i < j < |names| :: names[i] != names[j])
    && (forall i | 0 <= i < |names| :: !StartsLegacy(names[i]))
  }

  lemma LegacyStarts(family: Family, name: string)
    ensures StartsLegacy(Legacy(family, name))
  {
    assert "legacy" + "_" == "legacy_";
    JoinedAssociates("legacy", if family == MainV8 then Joined("main", "v8") else Joined("verified", "unversioned"),
                     name);
  }

  /** Every source table is found under its legacy name, and nothing else moved. */
  ghost predicate Moved(tables: Tables, family: Family, names: seq<string>, tables': Tables) {
    && (forall n | n in names :: n in tables && n !in tables' && Legacy(family, n) !in tables
                                  && Legacy(family, n) in tables' && tables'[Legacy(family, n)] == tables[n])
    && (forall m | m in tables && m !in names :: m in tables' && tables'[m] == tables[m])
    && (forall m | m in tables' && m !in tables :: exists n | n in names :: m == Legacy(family, n))
  }

  lemma {:induction false} RenameAllMoves(tables: Tables, family: Family, names: seq<string>)
    requires SourceNames(names) && RenameAll(tables, family, names).Some?
    ensures Moved(tables, family, names, RenameAll(tables, family, names).value)
    decreases |names|
  {
    hide Legacy, StartsLegacy;
    if names != [] {
      var n, rest := names[0], names[1..];
      var next := Rename(tables, n, Legacy(family, n)).value;
      RenameAllMoves(next, family, rest);
      LegacyStarts(family, n);
      forall m | m in rest ensures Legacy(family, m) != Legacy(family, n) && m != n && m != Legacy(family, n) {
        LegacyInjective(family, m, n);
      }
      forall m ensures Legacy(family, m) != n {
        LegacyStarts(family, m);
      }
      MovedStep(tables, family, n, rest, next, RenameAll(tables, family, names).value);
      assert names == [n] + rest;
    }
  }

  lemma RenamedByName(tables: Tables, family: Family, names: seq<string>)
    requires SourceNames(names) && RenameAll(tables, family, names).Some? && family in {MainV8, VerifiedUnversioned}
    ensures var tables' := RenameAll(tables, family, names).value;
            forall n | n in names ::
              && n in tables && n !in tables' && ArchiveName(family, n) in tables'
              && tables'[ArchiveName(family, n)] == tables[n]
  {
    RenameAllMoves(tables, family, names);
    hide Legacy, RenameAll, SourceNames, ArchiveName;
    forall n | n in names ensures ArchiveName(family, n) == Legacy(family, n) {
      ArchivedAs(family, n);
    }
  }

  lemma ArchivedAs(family: Family, name: string)
    requires family in {MainV8, VerifiedUnversioned}
    ensures ArchiveName(family, name) == Legacy(family, name)
  {
    LegacyNames(name);
    hide Legacy;
  }

  lemma MovedStep(tables: Tables, family: Family, n: string, rest: seq<string>, next: Tables, result: Tables)
    requires Rename(tables, n, Legacy(family, n)) == Some(next) && Moved(next, family, rest, result)
    requires n != Legacy(family, n) && n !in rest && Legacy(family, n) !in rest
    requires forall m | m in rest :: Legacy(family, m) != Legacy(family, n) && Legacy(family, m) != n
    ensures Moved(tables, family, [n] + rest, result)
  {
    hide Legacy;
    assert forall m :: m in [n] + rest <==> m == n || m in rest;
    forall m | m in [n] + rest
      ensures m in tables && m !in result && Legacy(family, m) !in tables && Legacy(family, m) in result
      ensures result[Legacy(family, m)] == tables[m]
    {
    }
    forall m | m in result && m !in tables ensures exists k | k in [n] + rest :: m == Legacy(family, k) {
      if m in next {
        assert m == Legacy(family, n) && n in [n] + rest;
      } else {
        var k :| k in rest && m == Legacy(family, k);
        assert k in [n] + rest;
      }
    }
  }

  /** The business tables, still without a row. */
  const BUSINESS := {"approvals", "approval_audit_events", "executions", "execution_reconciliation_assessments"}

  ghost predicate ArchivedUnder(db: Database, plan: Plan, db': Database) {
    plan.family != EmptyFamily ==>
      forall n | n in plan.names ::
        && n in db.tables && Legacy(plan.family, n) in db'.tables
        && db'.tables[Legacy(plan.family, n)] == db.tables[n]
        && DenyTriggers(Legacy(plan.family, n)) <= db'.triggers
  }

  ghost predicate FreshSchema(plan: Plan, entry: Entry, db': Database) {
    && ACTIVE_NAMES <= db'.tables.Keys
    && (forall n | n in BUSINESS :: db'.tables[n].rows == [])
    && db'.tables["schema_metadata"] == Table(METADATA_COLUMNS, [[SqlInt(1), SqlInt(9)]])
    && db'.tables["migration_history"].rows == [HistoryRow(plan, entry)]
    && ACTIVE_TRIGGERS <= db'.triggers
  }

  lemma {:induction false} ProtectAdds(triggers: set<string>, family: Family, names: seq<string>)
    requires Protect(triggers, family, names).Some?
    ensures triggers <= Protect(triggers, family, names).value
    ensures forall n | n in names :: DenyTriggers(Legacy(family, n)) <= Protect(triggers, family, names).value
    decreases names
  {
    hide DenyTriggers, Legacy;
    if names != [] {
      var added := DenyTriggers(Legacy(family, names[0]));
      ProtectAdds(triggers + added, family, names[1..]);
      forall n | n in names ensures DenyTriggers(Legacy(family, n)) <= Protect(triggers, family, names).value {
        if n != names[0] {
          assert n in names[1..];
        }
      }
    }
  }

  lemma ArchiveEffect(db: Database, family: Family, names: seq<string>)
    requires SourceNames(names) && Archive(db, family, names).Some?
    ensures var db' := Archive(db, family, names).value;
            && Moved(db.tables, family, names, db'.tables)
            && db.triggers <= db'.triggers
            && forall n | n in names :: DenyTriggers(Legacy(family, n)) <= db'.triggers
  {
    hide Moved, RenameAll, Protect, DenyTriggers, Legacy, SourceNames;
    RenameAllMoves(db.tables, family, names);
    ProtectAdds(db.triggers, family, names);
  }

  lemma CreateEffect(db: Database, plan: Plan, entry: Entry)
    requires CreateActive(db).Some?
    ensures "migration_history" in CreateActive(db).value.tables
    ensures var db' := Recorded(CreateActive(db).value, plan, entry);
            && FreshSchema(plan, entry, db')
            && db'.tables.Keys == db.tables.Keys + ACTIVE_NAMES
            && (forall m | m in db.tables :: m !in ACTIVE_NAMES && db'.tables[m] == db.tables[m])
            && db.triggers <= db'.triggers
  {
    assert ACTIVE_TABLES.Keys == ACTIVE_NAMES;
    forall m | m in db.tables ensures m !in ACTIVE_NAMES {
      assert m in ACTIVE_NAMES ==> m in db.tables.Keys * ACTIVE_NAMES;
    }
  }

  /**
   Success is lossless: every source table is kept, columns and rows, under its legacy name and
   behind its three triggers; the business tables are empty; the history has its one row; and
   tables the plan did not name are untouched.
   */
  lemma MigrationIsLossless(checks: Checks, plan: Plan, db: Database, entry: Entry)
    requires SourceNames(plan.names) && Migrated(checks, plan, db, entry).Some?
    ensures var db' := Migrated(checks, plan, db, entry).value;
            && ArchivedUnder(db, plan, db')
            && FreshSchema(plan, entry, db')
            && (forall m | m in db.tables && (plan.family == EmptyFamily || m !in plan.names) ::
                   m in db'.tables && db'.tables[m] == db.tables[m])
  {
    hide Installed, ContentKept, ActiveShape, SourceNames, FreshSchema;
    InstalledEffect(plan, db, entry);
  }

  lemma InstalledEffect(plan: Plan, db: Database, entry: Entry)
    requires SourceNames(plan.names) && Installed(plan, db, entry).Some?
    ensures var db' := Installed(plan, db, entry).value;
            && ArchivedUnder(db, plan, db')
            && FreshSchema(plan, entry, db')
            && (forall m | m in db.tables && (plan.family == EmptyFamily || m !in plan.names) ::
                   m in db'.tables && db'.tables[m] == db.tables[m])
            && ACTIVE_NAMES <= db'.tables.Keys
  {
    hide Archive, CreateActive, FreshSchema, Recorded, DenyTriggers, Legacy, SourceNames;
    if plan.family == EmptyFamily {
      CreateEffect(db, plan, entry);
    } else {
      var archived := Archive(db, plan.family, plan.names).value;
      ArchiveEffect(db, plan.family, plan.names);
      CreateEffect(archived, plan, entry);
      var db' := Installed(plan, db, entry).value;
      assert db' == Recorded(CreateActive(archived).value, plan, entry);
      forall m | m in archived.tables ensures m in db'.tables && db'.tables[m] == archived.tables[m] {
        assert m in db'.tables.Keys;
      }
    }
  }

  /** One archived table: kept under this name, behind its three triggers. */
  ghost predicate KeptAs(db: Database, name: string, db': Database, archived: string) {
    && name in db.tables && archived in db'.tables && db'.tables[archived] == db.tables[name]
    && archived + "_deny_insert" in db'.triggers
    && archived + "_deny_update" in db'.triggers
    && archived + "_deny_delete" in db'.triggers
  }

  /** A text cell, or NULL. */
  predicate TextOrNull(v: SqlValue, s: Option<string>) {
    (s.None? ==> v == SqlNull) && (s.Some? ==> v == SqlText(s.value))
  }

  lemma FreshByName(plan: Plan, entry: Entry, db': Database)
    requires FreshSchema(plan, entry, db') && plan.family != ActiveV9
    ensures {"schema_metadata", "migration_history", "approvals", "approval_audit_events", "executions",
             "execution_reconciliation_assessments"} <= db'.tables.Keys
    ensures && db'.tables["schema_metadata"].rows == [[SqlInt(1), SqlInt(9)]]
            && db'.tables["approvals"].rows == [] && db'.tables["approval_audit_events"].rows == []
            && db'.tables["executions"].rows == [] && db'.tables["execution_reconciliation_assessments"].rows == []
            && |db'.tables["migration_history"].rows| == 1
            && HistoryCells(plan, entry, db'.tables["migration_history"].rows[0])
  {
  }

  /** The history row: identifier, family, target version, commitment, backup file and time. */
  predicate HistoryCells(plan: Plan, entry: Entry, history: seq<SqlValue>) {
    && |history| == 6 && history[0] == SqlText(entry.id)
    && (plan.family == EmptyFamily ==> history[1] == SqlText("EMPTY"))
    && (plan.family == MainV8 ==> history[1] == SqlText("MAIN_V8"))
    && (plan.family == VerifiedUnversioned ==> history[1] == SqlText("VERIFIED_UNVERSIONED"))
    && history[2] == SqlInt(9) && TextOrNull(history[3], plan.commitment)
    && TextOrNull(history[4], entry.backup) && history[5] == SqlText(entry.at)
  }

  lemma KeptByName(db: Database, plan: Plan, db': Database)
    requires ArchivedUnder(db, plan, db')
    ensures plan.family == MainV8 ==> forall n | n in plan.names :: KeptAs(db, n, db', "legacy_main_v8_" + n)
    ensures plan.family == VerifiedUnversioned ==>
              forall n | n in plan.names :: KeptAs(db, n, db', "legacy_verified_unversioned_" + n)
  {
    hide Legacy, DenyTriggers;
    if plan.family in {MainV8, VerifiedUnversioned} {
      forall n | n in plan.names ensures KeptAs(db, n, db', ArchiveName(plan.family, n)) {
        ArchivedAs(plan.family, n);
        DeniedThrice(Legacy(plan.family, n));
      }
    }
  }

  /** What success leaves, by name: the archived tables, the one history row, the version, and empty business tables. */
  lemma ArchivedByName(checks: Checks, plan: Plan, db: Database, entry: Entry)
    requires SourceNames(plan.names) && Migrated(checks, plan, db, entry).Some? && plan.family != ActiveV9
    ensures var db' := Migrated(checks, plan, db, entry).value;
            && (plan.family == MainV8 ==> forall n | n in plan.names :: KeptAs(db, n, db', "legacy_main_v8_" + n))
            && (plan.family == VerifiedUnversioned ==>
                  forall n | n in plan.names :: KeptAs(db, n, db', "legacy_verified_unversioned_" + n))
            && {"schema_metadata", "migration_history", "approvals", "approval_audit_events", "executions",
                "execution_reconciliation_assessments"} <= db'.tables.Keys
            && db'.tables["schema_metadata"].rows == [[SqlInt(1), SqlInt(9)]]
            && db'.tables["approvals"].rows == [] && db'.tables["approval_audit_events"].rows == []
            && db'.tables["executions"].rows == [] && db'.tables["execution_reconciliation_assessments"].rows == []
            && |db'.tables["migration_history"].rows| == 1
            && HistoryCells(plan, entry, db'.tables["migration_history"].rows[0])
  {
    hide Migrated, SourceNames, ArchivedUnder, FreshSchema, KeptAs, HistoryCells;
    MigrationIsLossless(checks, plan, db, entry);
    var db' := Migrated(checks, plan, db, entry).value;
    FreshByName(plan, entry, db');
    KeptByName(db, plan, db');
  }

  lemma DeniedThrice(name: string)
    ensures DenyTriggers(name) == {name + "_deny_insert", name + "_deny_update", name + "_deny_delete"}
  {
  }

  // ---------------------------------------------------------------- running it again

  /** The plan every initialiser makes that reads `db` and nothing else. */
  function PlanFor(checks: Checks, db: Database, family: Family): Plan {
    var names := if family == EmptyFamily then [] else SortedNames(db.tables.Keys);
    Plan(family, names, if names == [] then None else Commitment(checks, db, names))
  }

  /** One uninterrupted run of the initialiser; the family is `None` when the database is refused. */
  function Ensured(checks: Checks, db: Database, entry: Entry): (Database, Option<Family>) {
    match Detect(checks, db)
    case None => (db, None)
    case Some(ActiveV9) => (db, if ActiveShape(checks, db) then Some(ActiveV9) else None)
    case Some(family) =>
      var plan := PlanFor(checks, db, family);
      if || (plan.names != [] && plan.commitment.None?)
         || (family != EmptyFamily && !checks.sourceIntegrity(db, family))
      then (db, None)
      else match Migrated(checks, plan, db, entry)
        case None => (db, None)
        case Some(db') => (db', Some(family))
  }

  lemma ActiveIsDetected(checks: Checks, db: Database)
    requires ActiveShape(checks, db) && db.tables["schema_metadata"].columns == METADATA_COLUMNS
    ensures Detect(checks, db) == Some(ActiveV9)
  {
    assert "schema_metadata" in db.tables.Keys;
  }

  lemma MigratedIsDetected(checks: Checks, plan: Plan, db: Database, entry: Entry)
    requires SourceNames(plan.names) && Migrated(checks, plan, db, entry).Some?
    ensures ActiveShape(checks, Migrated(checks, plan, db, entry).value)
    ensures Detect(checks, Migrated(checks, plan, db, entry).value) == Some(ActiveV9)
  {
    assert ActiveShape(checks, Migrated(checks, plan, db, entry).value) by {
      hide Installed, ContentKept, ActiveShape;
    }
    hide Installed, ContentKept, SourceNames, Migrated, ActiveShape, Detect;
    MigrationIsLossless(checks, plan, db, entry);
    ActiveIsDetected(checks, Migrated(checks, plan, db, entry).value);
  }

  /** All or nothing, and the second run is a no-op that reports the active version. */
  lemma SecondRunIsNoOp(checks: Checks, db: Database, entry: Entry, again: Entry)
    ensures var (db', family) := Ensured(checks, db, entry);
            && (family.None? ==> db' == db)
            && (family.Some? ==> Ensured(checks, db', again) == (db', Some(ActiveV9)))
  {
    hide Detect, Migrated, PlanFor, ActiveShape, SourceNames;
    var (db', family) := Ensured(checks, db, entry);
    if family.Some? && Detect(checks, db) != Some(ActiveV9) {
      var plan := PlanFor(checks, db, family.value);
      PlanForNames(checks, db, family.value);
      MigratedIsDetected(checks, plan, db, entry);
    }
  }

  /**
   After a successful run on a version 8 database every one of its tables is found, columns and
   rows, under `legacy_main_v8_` and its name; on an unversioned one under
   `legacy_verified_unversioned_`.
   */
  lemma EveryTableIsArchived(checks: Checks, db: Database, entry: Entry, name: string)
    requires name in db.tables
    ensures var (db', family) := Ensured(checks, db, entry);
            && (family == Some(MainV8) ==> KeptAs(db, name, db', "legacy_main_v8_" + name))
            && (family == Some(VerifiedUnversioned) ==> KeptAs(db, name, db', "legacy_verified_unversioned_" + name))
            && family != Some(EmptyFamily)
  {
    var (db', family) := Ensured(checks, db, entry);
    hide Detect, Ensured, PlanFor, Migrated, SourceNames, KeptAs, FreshSchema, ArchivedUnder;
    EnsuredMigrates(checks, db, entry);
    if family == Some(EmptyFamily) {
      NothingIsEmpty(checks, db);
    }
    if family.Some? && family.value in {MainV8, VerifiedUnversioned} {
      var plan := PlanFor(checks, db, family.value);
      PlanForNames(checks, db, family.value);
      PlanListsAll(checks, db, family.value, name);
      MigrationIsLossless(checks, plan, db, entry);
      KeptByName(db, plan, db');
    }
  }

  lemma EnsuredMigrates(checks: Checks, db: Database, entry: Entry)
    ensures var (db', family) := Ensured(checks, db, entry);
            family.Some? && family.value != ActiveV9 ==>
              && Detect(checks, db) == family
              && Migrated(checks, PlanFor(checks, db, family.value), db, entry) == Some(db')
              && PlanFor(checks, db, family.value).family == family.value
  {
    hide Detect, Migrated, ActiveShape, Commitment, SortedNames;
  }

  lemma NothingIsEmpty(checks: Checks, db: Database)
    requires Detect(checks, db) == Some(EmptyFamily)
    ensures forall n :: n !in db.tables
  {
    assert forall n :: n in db.tables ==> n in db.tables.Keys;
    hide SourceShape, SchemaVersion;
  }

  lemma PlanListsAll(checks: Checks, db: Database, family: Family, name: string)
    requires name in db.tables && family != EmptyFamily
    ensures name in PlanFor(checks, db, family).names
  {
    SortedNamesSorts(db.tables.Keys);
    hide SortedNames, Commitment;
    assert name in db.tables.Keys;
  }

  lemma PlanForNames(checks: Checks, db: Database, family: Family)
    requires Detect(checks, db) == Some(family) && family != ActiveV9
    ensures SourceNames(PlanFor(checks, db, family).names)
  {
    hide Detect, SourceNames, SortedNames, Commitment;
    DetectedSourceNames(checks, db, family, PlanFor(checks, db, family).names);
  }

  lemma DetectedSourceNames(checks: Checks, db: Database, family: Family, names: seq<string>)
    requires Detect(checks, db) == Some(family) && family != ActiveV9
    requires names == if family == EmptyFamily then [] else SortedNames(db.tables.Keys)
    ensures SourceNames(names)
  {
    if family != EmptyFamily {
      assert db.tables.Keys <= SOURCE_NAMES by { DetectedNames(checks, db); }
      hide Detect;
      AscendingSourceNames(db.tables.Keys);
    }
  }

  lemma AscendingSourceNames(s: set<string>)
    requires s <= SOURCE_NAMES
    ensures SourceNames(SortedNames(s))
  {
    SortedNamesSorts(s);
    var names := SortedNames(s);
    forall i, j | 0 <= i < j < |names| ensures names[i] != names[j] {
      KeyLessTotal(names[i], names[j]);
    }
    forall i | 0 <= i < |names| ensures !StartsLegacy(names[i]) {
      assert names[i] in names;
      SourceNameIsPlain(names[i]);
    }
  }

  lemma SourceNameIsPlain(name: string)
    requires name in SOURCE_NAMES
    ensures !StartsLegacy(name)
  {
    assert name[0] != 'l';
  }
}
