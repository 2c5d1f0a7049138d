/**
 Migration under interference: writes that fall between the reads and the exclusive transaction,
 and any number of processes initialising the same database at once.
 */
module MigrationRuns {
  import opened Prelude
  import opened Json
  import opened Encoding
  import opened Catalog
  import opened Migration

  // ---------------------------------------------------------------- one plan, and the database it meets

  lemma MigratedMoves(checks: Checks, plan: Plan, db: Database, entry: Entry)
    requires SourceNames(plan.names) && plan.family != EmptyFamily && Migrated(checks, plan, db, entry).Some?
    ensures var db' := Migrated(checks, plan, db, entry).value;
            && ArchivedUnder(db, plan, db') && plan.commitment.Some?
            && Commitment(checks, db', LegacyAll(plan.family, plan.names)) == plan.commitment
  {
    assert Installed(plan, db, entry) == Migrated(checks, plan, db, entry)
      && ContentKept(checks, plan, Migrated(checks, plan, db, entry).value) by {
      hide Installed, ContentKept, ActiveShape;
    }
    hide Migrated, Installed, ActiveShape, SourceNames, Commitment;
    MigrationIsLossless(checks, plan, db, entry);
  }

  /**
   A write to the source that survives from the first commitment to the exclusive transaction
   forces a rollback: if the migration succeeds, the tables it archived hold what was read, or
   the two committed texts clash.
   */
  lemma SurvivingWriteRollsBack(checks: Checks, plan: Plan, seen: Database, db: Database, entry: Entry)
    requires SourceNames(plan.names) && plan.family != EmptyFamily
    requires CanCommit(seen, Sorted(plan.names)) && plan.commitment == Commitment(checks, seen, plan.names)
    requires Migrated(checks, plan, db, entry).Some?
    ensures var db' := Migrated(checks, plan, db, entry).value;
            var archived := LegacyAll(plan.family, plan.names);
            && CanCommit(db', Sorted(archived))
            && (SameTables(checks, seen, db, plan.names)
                || Clash(checks.h, CommittedText(checks, seen, plan.names), CommittedText(checks, db', archived)))
  {
    var db' := Migrated(checks, plan, db, entry).value;
    var archived := LegacyAll(plan.family, plan.names);
    MigratedMoves(checks, plan, db, entry);
    assert CanCommit(db', Sorted(archived));
    hide Migrated, SourceNames, CanCommit, Legacy, SameTable, Sorted, CommittedText;
    CommitmentCommits(checks, seen, plan.names, db', archived);
    if !Clash(checks.h, CommittedText(checks, seen, plan.names), CommittedText(checks, db', archived)) {
      SortedSorts(plan.names);
      SortedLegacy(plan.family, plan.names);
      forall n | n in plan.names
        ensures n in seen.tables && n in db.tables && SameTable(checks, seen.tables[n], db.tables[n])
      {
        var sorted := Sorted(plan.names);
        assert n in sorted;
        var i :| 0 <= i < |sorted| && sorted[i] == n;
        CanCommitAt(seen, sorted, i);
        assert Sorted(archived)[i] == Legacy(plan.family, n);
        assert SameTable(checks, seen.tables[sorted[i]], db'.tables[Sorted(archived)[i]]);
      }
    }
  }

  ghost predicate SameTables(checks: Checks, seen: Database, db: Database, names: seq<string>) {
    forall n | n in names :: n in seen.tables && n in db.tables && SameTable(checks, seen.tables[n], db.tables[n])
  }

  lemma CanCommitAt(db: Database, names: seq<string>, i: nat)
    requires CanCommit(db, names) && i < |names|
    ensures names[i] in db.tables
  {
  }

  lemma {:induction false} RenameAllSucceeds(tables: Tables, family: Family, names: seq<string>)
    requires SourceNames(names)
    requires forall n | n in names :: n in tables && Legacy(family, n) !in tables
    ensures RenameAll(tables, family, names).Some?
    decreases names
  {
    hide Legacy, StartsLegacy;
    if names != [] {
      var n, rest := names[0], names[1..];
      LegacyStarts(family, n);
      var next := Rename(tables, n, Legacy(family, n)).value;
      forall m | m in rest ensures m in next && Legacy(family, m) !in next {
        LegacyInjective(family, m, n);
        assert m in names;
      }
      RenameAllSucceeds(next, family, rest);
    }
  }

  /** Legacy names of a detected source are free, and each of them can be committed to. */
  lemma DetectedLegacy(checks: Checks, db: Database, family: Family, n: string)
    requires Detect(checks, db) == Some(family) && family in {MainV8, VerifiedUnversioned} && n in db.tables
    ensures Legacy(family, n) !in db.tables && Queried(Legacy(family, n)) && !StartsLegacy(n)
  {
    DetectedNames(checks, db);
    hide Detect;
    assert n in db.tables.Keys;
    LegacyStarts(family, n);
    if Legacy(family, n) in db.tables {
      assert Legacy(family, n) in db.tables.Keys;
      SourceNameIsPlain(Legacy(family, n));
    }
    SourceNameIsPlain(n);
    hide StartsLegacy, Legacy;
  }

  /** Tables moved under queried legacy names have the commitment they had. */
  lemma MovedCommitment(checks: Checks, db: Database, db': Database, family: Family, names: seq<string>)
    requires CanCommit(db, names) && SameUnderPrefix(db, db', family, names)
    requires forall n | n in names :: Queried(Legacy(family, n))
    ensures Commitment(checks, db', LegacyAll(family, names)) == Commitment(checks, db, names)
  {
    var archived := LegacyAll(family, names);
    assert CanCommit(db', archived) by {
      hide Legacy, StartsLegacy, Queried, Committable;
      forall i | 0 <= i < |archived|
        ensures Queried(archived[i]) && archived[i] in db'.tables && Committable(db'.tables[archived[i]])
      {
        assert names[i] in names && archived[i] == Legacy(family, names[i]);
      }
    }
    hide CanCommit, Sorted, SameUnderPrefix, Legacy, Queried, Document, Text;
    CanCommitSorted(db, names);
    CanCommitSorted(db', archived);
    RenamingInvisible(checks, db, db', family, names);
  }

  lemma DetectedPlan(checks: Checks, db: Database, family: Family)
    requires Detect(checks, db) == Some(family) && family in {MainV8, VerifiedUnversioned}
    ensures var names := SortedNames(db.tables.Keys);
            && SourceNames(names)
            && forall n | n in names ::
                 n in db.tables && Legacy(family, n) !in db.tables && Queried(Legacy(family, n)) && !StartsLegacy(n)
  {
    var names := SortedNames(db.tables.Keys);
    hide Detect, SourceNames, Legacy, StartsLegacy, Queried, SortedNames;
    SortedNamesSorts(db.tables.Keys);
    DetectedSourceNames(checks, db, family, names);
    forall n | n in names
      ensures n in db.tables && Legacy(family, n) !in db.tables && Queried(Legacy(family, n)) && !StartsLegacy(n)
    {
      assert n in db.tables.Keys;
      DetectedLegacy(checks, db, family, n);
    }
  }

  /**
   Nothing is refused for nothing: on the very database the plan was read from, every rename
   succeeds, and once the new schema is installed the content check always passes.
   */
  lemma UndisturbedMigrationKeepsContent(checks: Checks, family: Family, db: Database, entry: Entry, plan: Plan)
    requires Detect(checks, db) == Some(family) && family in {MainV8, VerifiedUnversioned}
    requires plan == Plan(family, SortedNames(db.tables.Keys), Commitment(checks, db, SortedNames(db.tables.Keys)))
    requires plan.commitment.Some?
    ensures RenameAll(db.tables, family, plan.names).Some?
    ensures Installed(plan, db, entry).Some? ==> ContentKept(checks, plan, Installed(plan, db, entry).value)
  {
    DetectedPlan(checks, db, family);
    CanCommitSorted(db, plan.names);
    assert CanCommit(db, plan.names);
    hide Detect, SourceNames, Installed, Legacy, StartsLegacy, Queried, CanCommit, Commitment, SortedNames;
    RenameAllSucceeds(db.tables, family, plan.names);
    if Installed(plan, db, entry).Some? {
      InstalledEffect(plan, db, entry);
      hide FreshSchema, DenyTriggers;
      MovedCommitment(checks, db, Installed(plan, db, entry).value, family, plan.names);
    }
  }

  // ---------------------------------------------------------------- many initialisers

  /** How far one initialiser has read. */
  datatype Phase =
    | Fresh
    | Detected(family: Family)
    | Listed(family: Family, names: seq<string>)
    | Weighed(plan: Plan)
    | Ready(plan: Plan)
    | Finished(migrated: bool)

  datatype World = World(db: Database, phases: map<int, Phase>, migrations: nat)

  datatype Move =
    | Advance(process: int, entry: Entry)
    | WriteRows(name: string, rows: seq<seq<SqlValue>>)

  function PhaseOf(w: World, process: int): Phase {
    if process in w.phases then w.phases[process] else Fresh
  }

  ghost function Entered(checks: Checks, w: World, process: int, entry: Entry): World {
    match PhaseOf(w, process)
    case Fresh =>
      (match Detect(checks, w.db)
       case None => w.(phases := w.phases[process := Finished(false)])
       case Some(ActiveV9) => w.(phases := w.phases[process := Finished(false)])
       case Some(family) => w.(phases := w.phases[process := Detected(family)]))
    case Detected(family) =>
      var names := if family == EmptyFamily then [] else SortedNames(w.db.tables.Keys);
      w.(phases := w.phases[process := Listed(family, names)])
    case Listed(family, names) =>
      if names == [] then w.(phases := w.phases[process := Weighed(Plan(family, names, None))])
      else if Commitment(checks, w.db, names).None? then w.(phases := w.phases[process := Finished(false)])
      else w.(phases := w.phases[process := Weighed(Plan(family, names, Commitment(checks, w.db, names)))])
    case Weighed(plan) =>
      if plan.family != EmptyFamily && !checks.sourceIntegrity(w.db, plan.family)
      then w.(phases := w.phases[process := Finished(false)])
      else w.(phases := w.phases[process := Ready(plan)])
    case Ready(plan) =>
      (match Migrated(checks, plan, w.db, entry)
       case None => w.(phases := w.phases[process := Finished(false)])
       case Some(db) => World(db, w.phases[process := Finished(true)], w.migrations + 1))
    case Finished(_) => w
  }

  /** Other programs change rows, but not those behind the triggers of an archived table. */
  ghost function Next(checks: Checks, w: World, m: Move): World {
    match m
    case Advance(process, entry) => Entered(checks, w, process, entry)
    case WriteRows(name, rows) =>
      if name in w.db.tables && DenyTriggers(name) * w.db.triggers == {}
      then w.(db := w.db.(tables := w.db.tables[name := w.db.tables[name].(rows := rows)]))
      else w
  }

  ghost function After(checks: Checks, w: World, moves: seq<Move>): World {
    if moves == [] then w
    else Next(checks, After(checks, w, moves[..|moves| - 1]), moves[|moves| - 1])
  }

  /** The family that table names alone allow a source to have. */
  function NamedFamily(names: set<string>): Family {
    if names == {} then EmptyFamily else if "schema_metadata" in names then MainV8 else VerifiedUnversioned
  }

  /** A source family recognised at a time when the tables were `names`. */
  ghost predicate FamilyAt(names: set<string>, family: Family) {
    && family == NamedFamily(names)
    && (family != EmptyFamily ==> names <= SOURCE_NAMES && "approvals" in names)
  }

  ghost predicate PlanAt(names: set<string>, family: Family, listed: seq<string>) {
    FamilyAt(names, family) && listed == if family == EmptyFamily then [] else SortedNames(names)
  }

  ghost predicate PhaseBefore(names: set<string>, phase: Phase) {
    match phase
    case Fresh => true
    case Detected(family) => FamilyAt(names, family)
    case Listed(family, listed) => PlanAt(names, family, listed)
    case Weighed(plan) => PlanAt(names, plan.family, plan.names)
    case Ready(plan) => PlanAt(names, plan.family, plan.names)
    case Finished(migrated) => !migrated
  }

  /** After the migration a list may also be one of the new tables, for which there is no commitment. */
  ghost predicate PhaseAfter(names: set<string>, phase: Phase) {
    match phase
    case Detected(family) => FamilyAt(names, family)
    case Listed(family, listed) => FamilyAt(names, family)
      && (PlanAt(names, family, listed) || "migration_history" in listed)
    case Weighed(plan) => PlanAt(names, plan.family, plan.names)
    case Ready(plan) => PlanAt(names, plan.family, plan.names)
    case _ => true
  }

  ghost predicate Migrant(names: set<string>, db: Database) {
    && ACTIVE_NAMES <= db.tables.Keys
    && forall n | n in names :: Legacy(NamedFamily(names), n) in db.tables
  }

  ghost predicate WorldInv(names: set<string>, w: World) {
    match w
    case World(db, phases, migrations) =>
      if migrations == 0
      then db.tables.Keys == names && forall p | p in phases :: PhaseBefore(names, phases[p])
      else migrations == 1 && Migrant(names, db) && forall p | p in phases :: PhaseAfter(names, phases[p])
  }

  lemma DetectsBefore(checks: Checks, db: Database)
    requires Detect(checks, db).Some? && Detect(checks, db) != Some(ActiveV9)
    ensures FamilyAt(db.tables.Keys, Detect(checks, db).value)
  {
    if Detect(checks, db) != Some(EmptyFamily) {
      DetectedNames(checks, db);
    } else {
      hide SourceShape;
    }
  }

  lemma DetectsNothingAfter(checks: Checks, names: set<string>, db: Database)
    requires Migrant(names, db)
    ensures Detect(checks, db) in {None, Some(ActiveV9)}
  {
    assert "schema_metadata" in db.tables.Keys && "migration_history" in db.tables.Keys;
    assert "migration_history" !in SOURCE_NAMES;
    if Detect(checks, db) in {Some(MainV8), Some(VerifiedUnversioned)} {
      DetectedNames(checks, db);
    }
  }

  /**
   Once migrated, no plan made from the old names can succeed: its first rename or creation meets an
   existing table.
   */
  lemma SecondPlanFails(checks: Checks, names: set<string>, plan: Plan, db: Database, entry: Entry)
    requires Migrant(names, db) && PlanAt(names, plan.family, plan.names)
    ensures Migrated(checks, plan, db, entry).None?
  {
    hide ContentKept, ActiveShape;
    if plan.family == EmptyFamily {
      assert "approvals" in db.tables.Keys * ACTIVE_NAMES;
    } else {
      SortedNamesSorts(names);
      assert plan.names != [] by { assert "approvals" in plan.names; }
      var first := plan.names[0];
      assert first in names && Legacy(plan.family, first) in db.tables;
      assert Rename(db.tables, first, Legacy(plan.family, first)).None?;
      assert RenameAll(db.tables, plan.family, plan.names).None?;
    }
  }

  lemma HistoryIsNotQueried(checks: Checks, db: Database, listed: seq<string>)
    requires "migration_history" in listed
    ensures Commitment(checks, db, listed).None? && listed != []
  {
    CanCommitSorted(db, listed);
    hide Sorted;
    var i :| 0 <= i < |listed| && listed[i] == "migration_history";
    assert !Queried(listed[i]) by {
      SourceNameIsPlain("approvals");
      forall n
        ensures Legacy(MainV8, n) != "migration_history" && Legacy(VerifiedUnversioned, n) != "migration_history"
      {
        LegacyStarts(MainV8, n);
        LegacyStarts(VerifiedUnversioned, n);
        assert !StartsLegacy("migration_history") by { assert "migration_history"[0] == 'm'; }
      }
    }
  }

  lemma MigrantAfter(checks: Checks, names: set<string>, plan: Plan, db: Database, entry: Entry)
    requires PlanAt(names, plan.family, plan.names) && db.tables.Keys == names
    requires Migrated(checks, plan, db, entry).Some?
    ensures Migrant(names, Migrated(checks, plan, db, entry).value)
  {
    hide Migrated;
    assert SourceNames(plan.names) by {
      if plan.family != EmptyFamily {
        AscendingSourceNames(names);
      }
    }
    SortedNamesSorts(names);
    hide SourceNames;
    MigrationIsLossless(checks, plan, db, entry);
  }

  lemma AdvanceKeepsInv(checks: Checks, names: set<string>, w: World, process: int, entry: Entry)
    requires WorldInv(names, w)
    ensures WorldInv(names, Entered(checks, w, process, entry))
  {
    var phase := PhaseOf(w, process);
    hide Detect, Commitment, Migrated, FamilyAt, Migrant, Legacy;
    if w.migrations == 0 {
      assert PhaseBefore(names, phase);
      match phase
      case Fresh =>
        if Detect(checks, w.db).Some? && Detect(checks, w.db) != Some(ActiveV9) {
          DetectsBefore(checks, w.db);
        }
      case Ready(plan) =>
        if Migrated(checks, plan, w.db, entry).Some? {
          MigrantAfter(checks, names, plan, w.db, entry);
        }
      case _ =>
    } else {
      assert PhaseAfter(names, phase);
      match phase
      case Fresh => DetectsNothingAfter(checks, names, w.db);
      case Detected(family) => ListedAfter(names, w.db, family);
      case Listed(family, listed) =>
        if "migration_history" in listed {
          HistoryIsNotQueried(checks, w.db, listed);
        }
      case Ready(plan) => SecondPlanFails(checks, names, plan, w.db, entry);
      case _ =>
    }
  }

  lemma ListedAfter(names: set<string>, db: Database, family: Family)
    requires Migrant(names, db) && FamilyAt(names, family)
    ensures PhaseAfter(names, Listed(family, if family == EmptyFamily then [] else SortedNames(db.tables.Keys)))
  {
    SortedNamesSorts(db.tables.Keys);
    assert "migration_history" in db.tables.Keys;
  }

  lemma WriteKeepsInv(checks: Checks, names: set<string>, w: World, name: string, rows: seq<seq<SqlValue>>)
    requires WorldInv(names, w)
    ensures WorldInv(names, Next(checks, w, WriteRows(name, rows)))
  {
    hide PhaseBefore, PhaseAfter, DenyTriggers, Legacy;
    assert name in w.db.tables ==> w.db.tables[name := w.db.tables[name].(rows := rows)].Keys == w.db.tables.Keys;
  }

  lemma {:induction false} RunKeepsWorldInv(checks: Checks, names: set<string>, w: World, moves: seq<Move>)
    requires WorldInv(names, w)
    ensures WorldInv(names, After(checks, w, moves))
    decreases |moves|
  {
    hide WorldInv, Entered;
    if moves != [] {
      var n := |moves| - 1;
      RunKeepsWorldInv(checks, names, w, moves[..n]);
      var mid := After(checks, w, moves[..n]);
      match moves[n]
      case Advance(process, entry) => AdvanceKeepsInv(checks, names, mid, process, entry);
      case WriteRows(name, rows) => WriteKeepsInv(checks, names, mid, name, rows);
    }
  }

  /**
   However many processes initialise one database, and however their reads, their exclusive
   transactions and other programs' writes interleave, at most one of them ever migrates.
   */
  lemma AtMostOneMigrates(checks: Checks, db: Database, moves: seq<Move>)
    ensures After(checks, World(db, map[], 0), moves).migrations <= 1
  {
    RunKeepsWorldInv(checks, db.tables.Keys, World(db, map[], 0), moves);
  }

  // ---------------------------------------------------------------- and one does

  ghost predicate PhaseOn(checks: Checks, db: Database, family: Family, phase: Phase) {
    match phase
    case Detected(f) => f == family
    case Listed(f, names) => f == family && names == PlanFor(checks, db, family).names
    case Weighed(plan) => plan == PlanFor(checks, db, family)
    case Ready(plan) => plan == PlanFor(checks, db, family)
      && (family == EmptyFamily || checks.sourceIntegrity(db, family))
    case _ => true
  }

  ghost predicate Undecided(checks: Checks, db: Database, family: Family, w: World) {
    w.migrations == 0 ==> w.db == db && forall p | p in w.phases :: PhaseOn(checks, db, family, w.phases[p])
  }

  predicate OnlyAdvances(moves: seq<Move>) {
    forall i | 0 <= i < |moves| :: moves[i].Advance?
  }

  lemma {:induction false} UndisturbedRun(checks: Checks, db: Database, family: Family, moves: seq<Move>)
    requires Detect(checks, db) == Some(family) && family != ActiveV9 && OnlyAdvances(moves)
    ensures Undecided(checks, db, family, After(checks, World(db, map[], 0), moves))
    decreases |moves|
  {
    hide Detect, Commitment, Migrated;
    if moves != [] {
      var n := |moves| - 1;
      var w := After(checks, World(db, map[], 0), moves[..n]);
      UndisturbedRun(checks, db, family, moves[..n]);
      assert moves[n].Advance?;
      if w.migrations == 0 {
        assert PhaseOn(checks, db, family, PhaseOf(w, moves[n].process));
      }
    }
  }

  /** The checks outside this model - trigger names, token checks, foreign keys - let the plan pass. */
  ghost predicate Admissible(checks: Checks, db: Database, family: Family, entry: Entry) {
    var installed := Installed(PlanFor(checks, db, family), db, entry);
    installed.Some? && ActiveShape(checks, installed.value) && checks.foreignKeys(installed.value)
  }

  lemma AdmissiblePlanMigrates(checks: Checks, db: Database, family: Family, entry: Entry)
    requires Detect(checks, db) == Some(family) && family != ActiveV9 && Admissible(checks, db, family, entry)
    requires family != EmptyFamily ==> PlanFor(checks, db, family).commitment.Some?
    ensures Migrated(checks, PlanFor(checks, db, family), db, entry).Some?
  {
    var plan := PlanFor(checks, db, family);
    hide Detect, Installed, ActiveShape, Commitment, SortedNames;
    if family != EmptyFamily {
      UndisturbedMigrationKeepsContent(checks, family, db, entry, plan);
    }
  }

  /**
   As long as nobody else writes: however many initialisers have read the same old database, the
   first whose exclusive transaction begins migrates it, and no other ever does; and what it
   archives passed the source's integrity rules.
   */
  lemma ExactlyOneMigrates(checks: Checks, db: Database, family: Family, before: seq<Move>, process: int, entry: Entry,
                           later: seq<Move>)
    requires Detect(checks, db) == Some(family) && family != ActiveV9 && OnlyAdvances(before)
    requires var w := After(checks, World(db, map[], 0), before); w.migrations == 0 && PhaseOf(w, process).Ready?
    requires family != EmptyFamily ==> PlanFor(checks, db, family).commitment.Some?
    requires Admissible(checks, db, family, entry)
    ensures After(checks, World(db, map[], 0), before + [Advance(process, entry)] + later).migrations == 1
    ensures family != EmptyFamily ==> checks.sourceIntegrity(db, family)
  {
    var start := World(db, map[], 0);
    var w := After(checks, start, before);
    UndisturbedRun(checks, db, family, before);
    assert PhaseOn(checks, db, family, PhaseOf(w, process));
    AdmissiblePlanMigrates(checks, db, family, entry);
    assert Next(checks, w, Advance(process, entry)).migrations == 1 by { hide Migrated, Detect; }
    assert After(checks, start, before + [Advance(process, entry)]) == Next(checks, w, Advance(process, entry)) by {
      assert (before + [Advance(process, entry)])[..|before|] == before;
      hide Next;
    }
    AfterAppend(checks, start, before + [Advance(process, entry)], later);
    hide *;
    OneStaysOne(checks, start, before + [Advance(process, entry)], later);
  }

  lemma OneStaysOne(checks: Checks, start: World, before: seq<Move>, later: seq<Move>)
    requires start.migrations == 0 && start.phases == map[] && After(checks, start, before).migrations == 1
    ensures After(checks, After(checks, start, before), later).migrations == 1
  {
    RunKeepsWorldInv(checks, start.db.tables.Keys, start, before);
    hide After, WorldInv;
    ArchiveIsFinal(checks, start.db.tables.Keys, After(checks, start, before), later, EmptyFamily, []);
  }

  // ---------------------------------------------------------------- the archive afterwards

  /** What is archived stays archived: same contents, same triggers. */
  ghost predicate ArchiveKept(db: Database, family: Family, names: seq<string>, db': Database) {
    forall n | n in names ::
      && Legacy(family, n) in db.tables && Legacy(family, n) in db'.tables
      && db'.tables[Legacy(family, n)] == db.tables[Legacy(family, n)]
      && DenyTriggers(Legacy(family, n)) <= db'.triggers
  }

  lemma WriteKeepsArchive(checks: Checks, w: World, name: string, rows: seq<seq<SqlValue>>, db: Database,
                          family: Family, names: seq<string>)
    requires ArchiveKept(db, family, names, w.db)
    ensures ArchiveKept(db, family, names, Next(checks, w, WriteRows(name, rows)).db)
  {
    hide Legacy;
    forall n | n in names && Legacy(family, n) == name ensures DenyTriggers(name) * w.db.triggers != {} {
      assert name + "_deny_insert" in DenyTriggers(name) * w.db.triggers;
    }
  }

  lemma NoSecondMigration(checks: Checks, names: set<string>, w: World, process: int, entry: Entry)
    requires WorldInv(names, w) && w.migrations == 1
    ensures Entered(checks, w, process, entry).db == w.db
  {
    hide Detect, Commitment, Migrated, FamilyAt, Migrant, Legacy;
    if PhaseOf(w, process).Ready? {
      assert PhaseAfter(names, PhaseOf(w, process));
      SecondPlanFails(checks, names, PhaseOf(w, process).plan, w.db, entry);
    }
  }

  lemma {:induction false} ArchiveIsFinal(checks: Checks, found: set<string>, w: World, moves: seq<Move>,
                                          family: Family, names: seq<string>)
    requires WorldInv(found, w) && w.migrations == 1 && ArchiveKept(w.db, family, names, w.db)
    ensures ArchiveKept(w.db, family, names, After(checks, w, moves).db)
    ensures After(checks, w, moves).migrations == 1
    decreases |moves|
  {
    hide WorldInv, Entered, ArchiveKept;
    if moves != [] {
      var n := |moves| - 1;
      var mid := After(checks, w, moves[..n]);
      ArchiveIsFinal(checks, found, w, moves[..n], family, names);
      RunKeepsWorldInv(checks, found, w, moves[..n]);
      match moves[n]
      case Advance(process, entry) =>
        NoSecondMigration(checks, found, mid, process, entry);
        MigrationsKept(checks, found, mid, process, entry);
      case WriteRows(name, rows) => WriteKeepsArchive(checks, mid, name, rows, w.db, family, names);
    }
  }

  lemma MigrationsKept(checks: Checks, names: set<string>, w: World, process: int, entry: Entry)
    requires WorldInv(names, w) && w.migrations == 1
    ensures Entered(checks, w, process, entry).migrations == 1
  {
    hide Detect, Commitment, Migrated, FamilyAt, Migrant, Legacy, WorldInv;
    AdvanceKeepsInv(checks, names, w, process, entry);
    if PhaseOf(w, process).Ready? {
      NoSecondMigrationPlan(checks, names, w, process, entry);
    }
  }

  lemma NoSecondMigrationPlan(checks: Checks, names: set<string>, w: World, process: int, entry: Entry)
    requires WorldInv(names, w) && w.migrations == 1 && PhaseOf(w, process).Ready?
    ensures Migrated(checks, PhaseOf(w, process).plan, w.db, entry).None?
  {
    hide Detect, Commitment, Migrated, FamilyAt, Migrant, Legacy;
    assert PhaseAfter(names, PhaseOf(w, process));
    SecondPlanFails(checks, names, PhaseOf(w, process).plan, w.db, entry);
  }

  lemma {:induction false} AfterAppend(checks: Checks, w: World, first: seq<Move>, second: seq<Move>)
    ensures After(checks, w, first + second) == After(checks, After(checks, w, first), second)
    decreases |second|
  {
    hide Next;
    if second == [] {
      assert first + second == first;
    } else {
      var n := |second| - 1;
      assert (first + second)[..|first + second| - 1] == first + second[..n];
      AfterAppend(checks, w, first, second[..n]);
    }
  }

  /**
   Whatever runs before and after: the tables the one migration archived still hold, under their
   legacy names, the columns and rows they had when its exclusive transaction began.
   */
  lemma ArchivePreservedForEver(checks: Checks, db: Database, before: seq<Move>, process: int, entry: Entry,
                                later: seq<Move>)
    requires var w := After(checks, World(db, map[], 0), before);
             PhaseOf(w, process).Ready? && PhaseOf(w, process).plan.family != EmptyFamily
             && Migrated(checks, PhaseOf(w, process).plan, w.db, entry).Some?
    ensures var w := After(checks, World(db, map[], 0), before);
            var w' := After(checks, World(db, map[], 0), before + [Advance(process, entry)] + later);
            var plan := PhaseOf(w, process).plan;
            && w'.migrations == 1
            && forall n | n in plan.names ::
                 n in w.db.tables && Legacy(plan.family, n) in w'.db.tables
                   && w'.db.tables[Legacy(plan.family, n)] == w.db.tables[n]
  {
    var start := World(db, map[], 0);
    var w := After(checks, start, before);
    var plan := PhaseOf(w, process).plan;
    var names := db.tables.Keys;
    assert WorldInv(names, start);
    RunKeepsWorldInv(checks, names, start, before);
    AdvanceKeepsInv(checks, names, w, process, entry);
    AfterAppend(checks, start, before + [Advance(process, entry)], later);
    assert (before + [Advance(process, entry)])[..|before|] == before;
    var next := Next(checks, w, Advance(process, entry));
    assert After(checks, start, before + [Advance(process, entry)]) == next by { hide Next; }
    ReadyPlanSorted(checks, names, w, process, entry);
    assert next.db == Migrated(checks, plan, w.db, entry).value
      && next.migrations == w.migrations + 1 by { hide Migrated; }
    hide After, Next, WorldInv, Migrated, SourceNames, DenyTriggers, Legacy, FreshSchema;
    MigrationIsLossless(checks, plan, w.db, entry);
    ArchiveIsFinal(checks, names, next, later, plan.family, plan.names);
  }

  lemma ReadyPlanSorted(checks: Checks, names: set<string>, w: World, process: int, entry: Entry)
    requires WorldInv(names, w) && PhaseOf(w, process).Ready?
    requires Migrated(checks, PhaseOf(w, process).plan, w.db, entry).Some?
    ensures w.migrations == 0 && SourceNames(PhaseOf(w, process).plan.names)
  {
    var plan := PhaseOf(w, process).plan;
    assert PlanAt(names, plan.family, plan.names);
    if w.migrations == 1 {
      hide Migrated;
      SecondPlanFails(checks, names, plan, w.db, entry);
    }
    hide Migrated;
    if plan.family != EmptyFamily {
      AscendingSourceNames(names);
    }
  }
}
