/**
 What the integrity rules applied before the exclusive transaction are worth when other programs
 write: content that passed them is the content archived exactly as long as no source table can
 be written between the check and the transaction.
 */
module MigrationIntegrity {
  import opened Prelude
  import opened Catalog
  import opened Migration
  import opened MigrationRuns

  // ---------------------------------------------------------------- checked content is archived

  /** Other programs write no table but these. */
  predicate OnlyWritesTo(moves: seq<Move>, writable: set<string>) {
    forall i | 0 <= i < |moves| && moves[i].WriteRows? :: moves[i].name in writable
  }

  predicate Writable(db: Database, name: string) {
    name in db.tables && DenyTriggers(name) * db.triggers == {}
  }

  /** The moment at which the process applies the rules, and the moment its exclusive transaction begins. */
  ghost function AtCheck(checks: Checks, db: Database, before: seq<Move>): World {
    After(checks, World(db, map[], 0), before)
  }

  ghost function AtCommit(checks: Checks, db: Database, before: seq<Move>, p: int, check: Entry,
                          mid: seq<Move>): World {
    After(checks, Next(checks, AtCheck(checks, db, before), Advance(p, check)), mid)
  }

  /** After any moves `before`, the rules pass; then come `mid`, and the transaction succeeds. */
  ghost predicate Archives(checks: Checks, db: Database, writable: set<string>, before: seq<Move>, p: int, check: Entry,
                           mid: seq<Move>, entry: Entry)
  {
    var w1 := AtCheck(checks, db, before);
    var w3 := AtCommit(checks, db, before, p, check, mid);
    && PhaseOf(w1, p).Weighed? && PhaseOf(Next(checks, w1, Advance(p, check)), p).Ready?
    && OnlyWritesTo(mid, writable)
    && PhaseOf(w3, p).Ready? && Migrated(checks, PhaseOf(w3, p).plan, w3.db, entry).Some?
  }

  /** What the transaction finds and archives passes the rules. */
  ghost predicate ContentPasses(checks: Checks, db: Database, before: seq<Move>, p: int, check: Entry, mid: seq<Move>) {
    var w3 := AtCommit(checks, db, before, p, check, mid);
    PhaseOf(w3, p).Ready? && (PhaseOf(w3, p).plan.family != EmptyFamily ==>
        checks.sourceIntegrity(w3.db, PhaseOf(w3, p).plan.family))
  }

  /** Without a migration a move changes neither the set of tables nor the triggers, and a read nothing at all. */
  lemma QuietStep(checks: Checks, w: World, m: Move)
    ensures var w' := Next(checks, w, m);
            && w'.migrations >= w.migrations
            && (w'.migrations == w.migrations ==>
                  && w'.db.tables.Keys == w.db.tables.Keys && w'.db.triggers == w.db.triggers
                  && (m.Advance? || !Writable(w.db, m.name) ==> w'.db == w.db))
  {
    hide Detect, Commitment, Migrated, SortedNames, DenyTriggers;
  }

  lemma {:induction false} QuietRun(checks: Checks, w: World, moves: seq<Move>, writable: set<string>)
    requires OnlyWritesTo(moves, writable)
    ensures var w' := After(checks, w, moves);
            && w'.migrations >= w.migrations
            && (w'.migrations == w.migrations ==>
                  && w'.db.tables.Keys == w.db.tables.Keys && w'.db.triggers == w.db.triggers
                  && ((forall n | n in writable :: !Writable(w.db, n)) ==> w'.db == w.db))
    decreases |moves|
  {
    hide Next, Writable;
    if moves != [] {
      var n := |moves| - 1;
      var mid := After(checks, w, moves[..n]);
      QuietRun(checks, w, moves[..n], writable);
      QuietStep(checks, mid, moves[n]);
    }
  }

  lemma ReadyOrFinished(checks: Checks, w: World, m: Move, p: int, plan: Plan)
    requires PhaseOf(w, p) == Ready(plan) || PhaseOf(w, p).Finished?
    ensures PhaseOf(Next(checks, w, m), p) == Ready(plan) || PhaseOf(Next(checks, w, m), p).Finished?
  {
    hide Detect, Commitment, Migrated, SortedNames, DenyTriggers;
  }

  lemma {:induction false} PlanKept(checks: Checks, w: World, moves: seq<Move>, p: int, plan: Plan)
    requires PhaseOf(w, p) == Ready(plan)
    ensures PhaseOf(After(checks, w, moves), p) == Ready(plan) || PhaseOf(After(checks, w, moves), p).Finished?
    decreases |moves|
  {
    hide Next, PhaseOf;
    if moves != [] {
      PlanKept(checks, w, moves[..|moves| - 1], p, plan);
      ReadyOrFinished(checks, After(checks, w, moves[..|moves| - 1]), moves[|moves| - 1], p, plan);
    }
  }

  lemma CheckPassed(checks: Checks, w: World, p: int, check: Entry)
    requires PhaseOf(w, p).Weighed? && PhaseOf(Next(checks, w, Advance(p, check)), p).Ready?
    ensures var w' := Next(checks, w, Advance(p, check));
            var plan := PhaseOf(w, p).plan;
            && w'.db == w.db && w'.migrations == w.migrations && PhaseOf(w', p) == Ready(plan)
            && (plan.family != EmptyFamily ==> checks.sourceIntegrity(w.db, plan.family))
  {
  }

  lemma AnyWrites(moves: seq<Move>) returns (writable: set<string>)
    ensures OnlyWritesTo(moves, writable)
  {
    writable := set i | 0 <= i < |moves| && moves[i].WriteRows? :: moves[i].name;
  }

  /**
   However the tables were written before: if between one process's integrity check and its
   exclusive transaction other programs write no table of the source, then what the transaction
   archives is what was checked, and it passed.  Other initialisers may run at any time.
   */
  lemma CheckedContentIsArchived(checks: Checks, db: Database, writable: set<string>, before: seq<Move>, p: int,
                                 check: Entry,
                                 mid: seq<Move>, entry: Entry)
    requires Archives(checks, db, writable, before, p, check, mid, entry)
    requires forall n | n in writable :: !Writable(db, n)
    ensures AtCommit(checks, db, before, p, check, mid).db == AtCheck(checks, db, before).db
    ensures ContentPasses(checks, db, before, p, check, mid)
  {
    var start := World(db, map[], 0);
    var names := db.tables.Keys;
    var w1 := AtCheck(checks, db, before);
    var w2 := Next(checks, w1, Advance(p, check));
    var w3 := AtCommit(checks, db, before, p, check, mid);
    assert WorldInv(names, start);
    hide After, Next, WorldInv, Migrated, PhaseOf, OnlyWritesTo, Writable;
    RunKeepsWorldInv(checks, names, start, before);
    StepKeepsWorldInv(checks, names, w1, Advance(p, check));
    RunKeepsWorldInv(checks, names, w2, mid);
    ReadyPlanSorted(checks, names, w3, p, entry);
    var earlier := AnyWrites(before);
    QuietRun(checks, start, before, earlier);
    CheckPassed(checks, w1, p, check);
    QuietRun(checks, w2, mid, writable);
    forall n | n in writable ensures !Writable(w2.db, n) {
      SameWritable(db, w2.db, n);
    }
    PlanKept(checks, w2, mid, p, PhaseOf(w2, p).plan);
  }

  lemma SameWritable(db: Database, db': Database, name: string)
    requires db'.tables.Keys == db.tables.Keys && db'.triggers == db.triggers
    ensures Writable(db', name) <==> Writable(db, name)
  {
    assert name in db.tables <==> name in db.tables.Keys;
  }

  lemma StepKeepsWorldInv(checks: Checks, names: set<string>, w: World, m: Move)
    requires WorldInv(names, w)
    ensures WorldInv(names, Next(checks, w, m))
  {
    hide WorldInv, Entered;
    match m
    case Advance(process, entry) => AdvanceKeepsInv(checks, names, w, process, entry);
    case WriteRows(name, rows) => WriteKeepsInv(checks, names, w, name, rows);
  }

  // ---------------------------------------------------------------- a table that changes and changes back

  function WithRows(db: Database, name: string, rows: seq<seq<SqlValue>>): Database
    requires name in db.tables
  {
    db.(tables := db.tables[name := db.tables[name].(rows := rows)])
  }

  /** Reads the source, then sees other rows while the integrity rules are applied, then the first rows again. */
  ghost function BackAndForth(db: Database, name: string, rows: seq<seq<SqlValue>>, p: int, entry: Entry): seq<Move>
    requires name in db.tables
  {
    [Advance(p, entry), Advance(p, entry), Advance(p, entry), WriteRows(name, rows), Advance(p, entry),
     WriteRows(name, db.tables[name].rows), Advance(p, entry)]
  }

  lemma Extends(checks: Checks, w: World, moves: seq<Move>, k: nat)
    requires k < |moves|
    ensures After(checks, w, moves[..k + 1]) == Next(checks, After(checks, w, moves[..k]), moves[k])
  {
    hide Next;
    assert moves[..k + 1][..k] == moves[..k];
  }

  lemma DetectsRead(checks: Checks, w: World, p: int, entry: Entry, family: Family)
    requires PhaseOf(w, p) == Fresh && Detect(checks, w.db) == Some(family) && family != ActiveV9
    ensures Next(checks, w, Advance(p, entry)) == w.(phases := w.phases[p := Detected(family)])
  {
    hide Detect;
  }

  lemma ListsRead(checks: Checks, w: World, p: int, entry: Entry, family: Family)
    requires PhaseOf(w, p) == Detected(family)
    ensures Next(checks, w, Advance(p, entry)) ==
            w.(phases := w.phases[p := Listed(family, PlanFor(checks, w.db, family).names)])
  {
    hide SortedNames, Commitment;
  }

  lemma WeighsRead(checks: Checks, w: World, p: int, entry: Entry, family: Family)
    requires PhaseOf(w, p) == Listed(family, PlanFor(checks, w.db, family).names)
    requires PlanFor(checks, w.db, family).commitment.Some?
    ensures Next(checks, w, Advance(p, entry)) == w.(phases := w.phases[p := Weighed(PlanFor(checks, w.db, family))])
  {
    hide SortedNames, Commitment;
  }

  lemma ReadsPlan(checks: Checks, db: Database, family: Family, p: int, entry: Entry)
    requires Detect(checks, db) == Some(family) && family in {MainV8, VerifiedUnversioned}
    requires PlanFor(checks, db, family).commitment.Some?
    ensures var w1 := Next(checks, World(db, map[], 0), Advance(p, entry));
            var w2 := Next(checks, w1, Advance(p, entry));
            var w3 := Next(checks, w2, Advance(p, entry));
            w3.db == db && w3.migrations == 0 && PhaseOf(w3, p) == Weighed(PlanFor(checks, db, family))
  {
    hide Next, Detect, PlanFor;
    var start := World(db, map[], 0);
    DetectsRead(checks, start, p, entry, family);
    var w1 := Next(checks, start, Advance(p, entry));
    ListsRead(checks, w1, p, entry, family);
    WeighsRead(checks, Next(checks, w1, Advance(p, entry)), p, entry, family);
  }

  lemma WriteThenCheck(checks: Checks, db: Database, family: Family, plan: Plan, w: World, name: string,
                       rows: seq<seq<SqlValue>>, p: int, entry: Entry)
    requires w.db == db && PhaseOf(w, p) == Weighed(plan) && plan.family == family && w.migrations == 0
    requires name in db.tables && DenyTriggers(name) * db.triggers == {}
    requires checks.sourceIntegrity(WithRows(db, name, rows), family)
    ensures var w1 := Next(checks, w, WriteRows(name, rows));
            var w2 := Next(checks, w1, Advance(p, entry));
            var w3 := Next(checks, w2, WriteRows(name, db.tables[name].rows));
            && PhaseOf(w1, p) == Weighed(plan) && PhaseOf(w2, p) == Ready(plan)
            && w3.db == db && w3.migrations == 0 && PhaseOf(w3, p) == Ready(plan)
  {
    hide Detect, Commitment, Migrated, DenyTriggers;
    assert db.tables[name := db.tables[name].(rows := rows)][name := db.tables[name]] == db.tables;
  }

  /**
   The integrity check proves nothing against a writer who changes a table and changes it back:
   rows that pass while they are checked and rows that fail at the commitment and at the end
   leave the failing rows archived, with the content check satisfied.
   */
  lemma UnverifiedContentCanBeArchived(checks: Checks, db: Database, family: Family, name: string,
                                       rows: seq<seq<SqlValue>>, p: int, entry: Entry)
    requires Detect(checks, db) == Some(family) && family in {MainV8, VerifiedUnversioned}
    requires PlanFor(checks, db, family).commitment.Some? && Admissible(checks, db, family, entry)
    requires name in db.tables && DenyTriggers(name) * db.triggers == {}
    requires checks.sourceIntegrity(WithRows(db, name, rows), family) && !checks.sourceIntegrity(db, family)
    ensures var w := After(checks, World(db, map[], 0), BackAndForth(db, name, rows, p, entry));
            && w.migrations == 1 && Legacy(family, name) in w.db.tables
            && w.db.tables[Legacy(family, name)] == db.tables[name]
  {
    var start := World(db, map[], 0);
    var moves := BackAndForth(db, name, rows, p, entry);
    var plan := PlanFor(checks, db, family);
    var read, write, restore := Advance(p, entry), WriteRows(name, rows), WriteRows(name, db.tables[name].rows);
    assert moves == [read, read, read, write, read, restore, read] && plan.family == family;
    hide *;
    ReadsPlan(checks, db, family, p, entry);
    SevenSteps(checks, start, read, write, restore);
    var w3 := Next(checks, Next(checks, Next(checks, start, read), read), read);
    WriteThenCheck(checks, db, family, plan, w3, name, rows, p, entry);
    var w6 := Next(checks, Next(checks, Next(checks, w3, write), read), restore);
    AdmissiblePlanMigrates(checks, db, family, entry);
    LastAdvance(checks, w6, plan, p, entry);
    PlanNames(checks, db, family, name);
    MigrationIsLossless(checks, plan, db, entry);
    ArchivedAt(db, plan, Migrated(checks, plan, db, entry).value, name);
  }

  lemma LastAdvance(checks: Checks, w: World, plan: Plan, p: int, entry: Entry)
    requires PhaseOf(w, p) == Ready(plan) && w.migrations == 0 && Migrated(checks, plan, w.db, entry).Some?
    ensures var w' := Next(checks, w, Advance(p, entry));
            w'.db == Migrated(checks, plan, w.db, entry).value && w'.migrations == 1
  {
    hide Migrated;
  }

  lemma PlanNames(checks: Checks, db: Database, family: Family, name: string)
    requires Detect(checks, db) == Some(family) && family in {MainV8, VerifiedUnversioned} && name in db.tables
    ensures SourceNames(PlanFor(checks, db, family).names) && name in PlanFor(checks, db, family).names
  {
    DetectedPlan(checks, db, family);
    SortedNamesSorts(db.tables.Keys);
    hide Detect, SourceNames, SortedNames, Commitment;
    assert name in db.tables.Keys;
  }

  lemma ArchivedAt(db: Database, plan: Plan, db': Database, name: string)
    requires ArchivedUnder(db, plan, db') && plan.family != EmptyFamily && name in plan.names
    ensures name in db.tables && Legacy(plan.family, name) in db'.tables
    ensures db'.tables[Legacy(plan.family, name)] == db.tables[name]
  {
    hide Legacy, DenyTriggers;
  }

  lemma SevenSteps(checks: Checks, w: World, read: Move, write: Move, restore: Move)
    ensures After(checks, w, [read, read, read, write, read, restore, read]) ==
            Next(checks, Next(checks, Next(checks, Next(checks, Next(checks, Next(checks, Next(checks, w,
              read), read), read), write), read), restore), read)
  {
    hide Next, After;
    var moves := [read, read, read, write, read, restore, read];
    AfterNothing(checks, w, moves[..0]);
    Extends(checks, w, moves, 0);
    Extends(checks, w, moves, 1);
    Extends(checks, w, moves, 2);
    Extends(checks, w, moves, 3);
    Extends(checks, w, moves, 4);
    Extends(checks, w, moves, 5);
    Extends(checks, w, moves, 6);
    assert moves[..7] == moves;
  }

  lemma AfterNothing(checks: Checks, w: World, moves: seq<Move>)
    requires moves == []
    ensures After(checks, w, moves) == w
  {
  }

  // ---------------------------------------------------------------- exactly when

  /** With the same hashes and readers: rules that accept only one state, and everything else lets the plan pass. */
  function Picky(checks: Checks, only: Database): Checks {
    checks.(activeTokens := d => true, foreignKeys := d => true, sourceIntegrity := (d, f) => d == only)
  }

  lemma PickySameReading(checks: Checks, only: Database, db: Database, family: Family)
    ensures Detect(Picky(checks, only), db) == Detect(checks, db)
    ensures PlanFor(Picky(checks, only), db, family) == PlanFor(checks, db, family)
  {
    PickySameVersion(checks, only, db);
    PickySameText(checks, only, db, SortedNames(db.tables.Keys));
    hide SchemaVersion, SortedNames, Commitment;
  }

  lemma PickySameVersion(checks: Checks, only: Database, db: Database)
    ensures forall t :: SchemaVersion(Picky(checks, only), t) == SchemaVersion(checks, t)
  {
    hide SingletonRow;
  }

  lemma PickySameText(checks: Checks, only: Database, db: Database, names: seq<string>)
    ensures Commitment(Picky(checks, only), db, names) == Commitment(checks, db, names)
  {
    var picky, sorted := Picky(checks, only), Sorted(names);
    hide Sorted, Queried, Committable;
    if CanCommit(db, sorted) {
      forall i | 0 <= i < |sorted|
        ensures TableFields(picky, sorted[i], db.tables[sorted[i]]) == TableFields(checks, sorted[i],
            db.tables[sorted[i]])
      {
        PickySameTable(checks, only, sorted[i], db.tables[sorted[i]]);
      }
      hide TableFields;
      assert Document(picky, db, sorted).items == Document(checks, db, sorted).items;
    }
  }

  lemma PickySameTable(checks: Checks, only: Database, name: string, t: Table)
    ensures TableFields(Picky(checks, only), name, t) == TableFields(checks, name, t)
  {
    var picky := Picky(checks, only);
    forall i | 0 <= i < |t.rows| ensures RowJson(picky, t.rows[i]) == RowJson(checks, t.rows[i]) {
      assert RowJson(picky, t.rows[i]).items == RowJson(checks, t.rows[i]).items;
    }
    assert RowsJson(picky, t.rows).items == RowsJson(checks, t.rows).items;
    hide RowJson, CommitmentName;
  }

  lemma InstalledIsActive(checks: Checks, plan: Plan, db: Database, entry: Entry)
    requires Installed(plan, db, entry).Some? && checks.activeTokens(Installed(plan, db, entry).value)
    ensures ActiveShape(checks, Installed(plan, db, entry).value)
  {
    var archived := if plan.family == EmptyFamily then db else Archive(db, plan.family, plan.names).value;
    assert ACTIVE_TABLES.Keys == ACTIVE_NAMES;
    RecordedIsActive(checks, CreateActive(archived).value, plan, entry);
    hide Archive, CreateActive, Recorded, ActiveShape;
  }

  lemma RecordedIsActive(checks: Checks, created: Database, plan: Plan, entry: Entry)
    requires forall n | n in ACTIVE_NAMES :: n in created.tables && created.tables[n] == ACTIVE_TABLES[n]
    requires ACTIVE_TRIGGERS <= created.triggers && checks.activeTokens(Recorded(created, plan, entry))
    ensures ActiveShape(checks, Recorded(created, plan, entry))
  {
    hide HistoryRow;
    var rows := ACTIVE_TABLES["schema_metadata"].rows;
    assert SingletonRow(rows) == Some([SqlInt(1), SqlInt(9)]);
  }

  /** In every run, whatever the rules: what is archived passes them, if only these tables are written in between. */
  ghost predicate AlwaysPasses(db: Database, writable: set<string>) {
    forall checks, before, p, check, mid, entry | Archives(checks, db, writable, before, p, check, mid, entry) ::
      ContentPasses(checks, db, before, p, check, mid)
  }

  lemma SourceTableWritten(checks: Checks, db: Database, family: Family, writable: set<string>, name: string,
                           entry: Entry)
    requires Detect(checks, db) == Some(family) && family in {MainV8, VerifiedUnversioned}
    requires PlanFor(checks, db, family).commitment.Some? && Installed(PlanFor(checks, db, family), db, entry).Some?
    requires name in writable && Writable(db, name)
    ensures !AlwaysPasses(db, writable)
  {
    var rows := db.tables[name].rows + [[]];
    var other := WithRows(db, name, rows);
    var picky := Picky(checks, other);
    assert other != db by {
      assert other.tables[name].rows != db.tables[name].rows;
    }
    assert picky.sourceIntegrity(other, family) && !picky.sourceIntegrity(db, family);
    assert forall d :: picky.activeTokens(d) && picky.foreignKeys(d);
    PickySameReading(checks, other, db, family);
    var read, write, restore := Advance(0, entry), WriteRows(name, rows), WriteRows(name, db.tables[name].rows);
    assert OnlyWritesTo([restore], writable);
    hide Detect, PlanFor, Installed, Picky, ActiveShape, Migrated, Next, After, PhaseOf, Writable, WithRows,
         OnlyWritesTo;
    InstalledIsActive(picky, PlanFor(picky, db, family), db, entry);
    assert Admissible(picky, db, family, entry);
    RestoredRun(picky, db, family, writable, name, rows, entry, read, write, restore);
  }

  lemma RestoredRun(checks: Checks, db: Database, family: Family, writable: set<string>, name: string,
                    rows: seq<seq<SqlValue>>,
                    entry: Entry, read: Move, write: Move, restore: Move)
    requires Detect(checks, db) == Some(family) && family in {MainV8, VerifiedUnversioned}
    requires PlanFor(checks, db, family).commitment.Some? && Admissible(checks, db, family, entry)
    requires name in writable && Writable(db, name) && OnlyWritesTo([restore], writable)
    requires checks.sourceIntegrity(WithRows(db, name, rows), family) && !checks.sourceIntegrity(db, family)
    requires read == Advance(0, entry) && write == WriteRows(name, rows)
    requires restore == WriteRows(name, db.tables[name].rows)
    ensures !AlwaysPasses(db, writable)
  {
    var plan := PlanFor(checks, db, family);
    var start := World(db, map[], 0);
    var before, mid := [read, read, read, write], [restore];
    assert plan.family == family;
    assert Writable(db, name) ==> name in db.tables && DenyTriggers(name) * db.triggers == {};
    hide *;
    ReadsPlan(checks, db, family, 0, entry);
    FourSteps(checks, start, read, write);
    var weighed := Next(checks, Next(checks, Next(checks, start, read), read), read);
    WriteThenCheck(checks, db, family, plan, weighed, name, rows, 0, entry);
    var w1 := Next(checks, weighed, write);
    var w2 := Next(checks, w1, read);
    var w3 := Next(checks, w2, restore);
    OneStep(checks, w2, restore);
    AdmissiblePlanMigrates(checks, db, family, entry);
    ArchivesMeans(checks, db, writable, before, 0, entry, mid, entry, w1, w3);
    PassesMeans(checks, db, before, 0, entry, mid, w3);
    NotAlways(checks, db, writable, before, 0, entry, mid, entry);
  }

  lemma OneStep(checks: Checks, w: World, m: Move)
    ensures After(checks, w, [m]) == Next(checks, w, m)
  {
    hide Next;
    assert [m][..0] == [];
  }

  lemma FourSteps(checks: Checks, w: World, read: Move, write: Move)
    ensures After(checks, w, [read, read, read, write]) == Next(checks,
                                                                Next(checks, Next(checks, Next(checks, w, read), read),
                                                                     read), write)
  {
    hide Next, After;
    var moves := [read, read, read, write];
    AfterNothing(checks, w, moves[..0]);
    Extends(checks, w, moves, 0);
    Extends(checks, w, moves, 1);
    Extends(checks, w, moves, 2);
    Extends(checks, w, moves, 3);
    assert moves[..4] == moves;
  }

  lemma ArchivesMeans(checks: Checks, db: Database, writable: set<string>, before: seq<Move>, p: int, check: Entry,
                      mid: seq<Move>,
                      entry: Entry, w1: World, w3: World)
    requires w1 == After(checks, World(db, map[], 0), before)
    requires w3 == After(checks, Next(checks, w1, Advance(p, check)), mid)
    requires PhaseOf(w1, p).Weighed? && PhaseOf(Next(checks, w1, Advance(p, check)), p).Ready?
    requires OnlyWritesTo(mid, writable)
    requires PhaseOf(w3, p).Ready? && Migrated(checks, PhaseOf(w3, p).plan, w3.db, entry).Some?
    ensures Archives(checks, db, writable, before, p, check, mid, entry)
  {
    hide After, Next, PhaseOf, Migrated, OnlyWritesTo;
  }

  lemma PassesMeans(checks: Checks, db: Database, before: seq<Move>, p: int, check: Entry, mid: seq<Move>, w3: World)
    requires w3 == AtCommit(checks, db, before, p, check, mid) && PhaseOf(w3, p).Ready?
    requires PhaseOf(w3, p).plan.family != EmptyFamily && !checks.sourceIntegrity(w3.db, PhaseOf(w3, p).plan.family)
    ensures !ContentPasses(checks, db, before, p, check, mid)
  {
    hide After, Next, PhaseOf;
  }

  lemma NotAlways(checks: Checks, db: Database, writable: set<string>, before: seq<Move>, p: int, check: Entry,
                  mid: seq<Move>, entry: Entry)
    requires Archives(checks, db, writable, before, p, check, mid, entry)
    requires !ContentPasses(checks, db, before, p, check, mid)
    ensures !AlwaysPasses(db, writable)
  {
    hide Archives, ContentPasses;
  }

  /**
   For a source that can be migrated at all: what is archived passes the rules - whatever the
   rules, in every run in which other programs write only the given tables between the check and
   the exclusive transaction - exactly when none of these is a table of the source that can be
   written.
   */
  lemma PassesExactlyWithoutSourceWrites(checks: Checks, db: Database, family: Family, writable: set<string>,
                                         entry: Entry)
    requires Detect(checks, db) == Some(family) && family in {MainV8, VerifiedUnversioned}
    requires PlanFor(checks, db, family).commitment.Some? && Installed(PlanFor(checks, db, family), db, entry).Some?
    ensures AlwaysPasses(db, writable) <==> forall n | n in writable :: !Writable(db, n)
  {
    hide Detect, PlanFor, Installed, Archives, ContentPasses, Writable;
    if forall n | n in writable :: !Writable(db, n) {
      forall checks', before, p, check, mid, entry' | Archives(checks', db, writable, before, p, check, mid, entry')
        ensures ContentPasses(checks', db, before, p, check, mid)
      {
        CheckedContentIsArchived(checks', db, writable, before, p, check, mid, entry');
      }
    } else {
      var name :| name in writable && Writable(db, name);
      SourceTableWritten(checks, db, family, writable, name, entry);
    }
  }
}
