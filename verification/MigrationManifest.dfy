/** The embedded migration manifest and its validator (crates/durable-store/src/migration.rs). */
module MigrationManifest {
  import opened Prelude
  import opened Text

  datatype EmbeddedMigration = EmbeddedMigration(
    logicalId: string,
    logicalModelVersion: nat,
    createdTables: seq<string>,
    sql: string)

  datatype ManifestError =
    | Empty
    | InvalidLogicalId(index: nat)
    | NonIncreasingLogicalId(index: nat)
    | DecreasingModelVersion(index: nat)
    | EmptySql(index: nat)
    | EmptyTableName(index: nat)
    | DuplicateTable(index: nat)

  predicate LowerDigitOrUnderscore(c: char) {
    'a' <= c <= 'z' || Digit(c) || c == '_'
  }

  /** Four digits, an underscore, then at least one lower-case letter, digit or underscore. */
  predicate ValidLogicalId(id: string) {
    && |id| > 5
    && (forall i :: 0 <= i < 4 ==> Digit(id[i]))
    && id[4] == '_'
    && forall i :: 5 <= i < |id| ==> LowerDigitOrUnderscore(id[i])
  }

  function TablesOf(migrations: seq<EmbeddedMigration>): seq<string> {
    if migrations == [] then []
    else TablesOf(migrations[..|migrations| - 1]) + migrations[|migrations| - 1].createdTables
  }

  // ---------------------------------------------------------------- the validator

  /** The tables of migration `index`, given all that are declared up to and including it. */
  function CheckTables(tables: seq<string>, declared: seq<string>, index: nat): Option<ManifestError> {
    if tables == [] then None
    else if tables[0] == "" then Some(EmptyTableName(index))
    else if multiset(declared)[tables[0]] > 1 then Some(DuplicateTable(index))
    else CheckTables(tables[1..], declared, index)
  }

  function CheckMigration(migrations: seq<EmbeddedMigration>, index: nat): Option<ManifestError>
    requires index < |migrations|
  {
    var migration := migrations[index];
    if !ValidLogicalId(migration.logicalId) then Some(InvalidLogicalId(index))
    else if Blank(migration.sql) then Some(EmptySql(index))
    else if index > 0 && !Before(migrations[index - 1].logicalId, migration.logicalId) then
      Some(NonIncreasingLogicalId(index))
    else if index > 0 && migrations[index - 1].logicalModelVersion > migration.logicalModelVersion then
      Some(DecreasingModelVersion(index))
    else CheckTables(migration.createdTables, TablesOf(migrations[..index + 1]), index)
  }

  function CheckFrom(migrations: seq<EmbeddedMigration>, index: nat): Result<(), ManifestError>
    requires index <= |migrations|
    decreases |migrations| - index
  {
    if index == |migrations| then Ok(())
    else match CheckMigration(migrations, index)
      case Some(error) => Err(error)
      case None => CheckFrom(migrations, index + 1)
  }

  function ValidateManifest(migrations: seq<EmbeddedMigration>): Result<(), ManifestError> {
    if migrations == [] then Err(Empty) else CheckFrom(migrations, 0)
  }

  // ---------------------------------------------------------------- what it decides

  /** Ids are well formed and strictly increase, versions never decrease, and there is SQL to run. */
  ghost predicate HeadsOrdered(migrations: seq<EmbeddedMigration>) {
    && (forall i :: 0 <= i < |migrations| ==>
          ValidLogicalId(migrations[i].logicalId) && !Blank(migrations[i].sql))
    && forall i, j :: 0 <= i < j < |migrations| ==>
         Before(migrations[i].logicalId, migrations[j].logicalId)
         && migrations[i].logicalModelVersion <= migrations[j].logicalModelVersion
  }

  /** Besides, no table is created twice. */
  ghost predicate Ordered(migrations: seq<EmbeddedMigration>) {
    && HeadsOrdered(migrations)
    && "" !in TablesOf(migrations)
    && Distinct(TablesOf(migrations))
  }

  /** What the error says about the migration it names. */
  ghost predicate Explains(migrations: seq<EmbeddedMigration>, error: ManifestError) {
    match error
    case Empty => migrations == []
    case InvalidLogicalId(i) => i < |migrations| && !ValidLogicalId(migrations[i].logicalId)
    case EmptySql(i) => i < |migrations| && Blank(migrations[i].sql)
    case NonIncreasingLogicalId(i) =>
      0 < i < |migrations| && !Before(migrations[i - 1].logicalId, migrations[i].logicalId)
    case DecreasingModelVersion(i) =>
      0 < i < |migrations| && migrations[i - 1].logicalModelVersion > migrations[i].logicalModelVersion
    case EmptyTableName(i) => i < |migrations| && "" in migrations[i].createdTables
    case DuplicateTable(i) => i < |migrations| && !Distinct(TablesOf(migrations[..i + 1]))
  }

  lemma {:induction false} TablesChecked(tables: seq<string>, declared: seq<string>, index: nat)
    ensures var r := CheckTables(tables, declared, index);
            && (r.None? <==> "" !in tables && forall x :: x in tables ==> multiset(declared)[x] <= 1)
            && (r.Some? ==> r.value == EmptyTableName(index) || r.value == DuplicateTable(index))
            && (r == Some(EmptyTableName(index)) ==> "" in tables)
            && (r == Some(DuplicateTable(index)) ==> !Distinct(declared))
  {
    if tables != [] {
      TablesChecked(tables[1..], declared, index);
      DistinctCountsAtMostOne(declared, tables[0]);
      assert forall x :: x in tables <==> x == tables[0] || x in tables[1..];
    }
  }

  /** Adding tables to distinct ones keeps them distinct exactly if none of the added ones is declared twice. */
  lemma TablesStayDistinct(earlier: seq<string>, tables: seq<string>)
    requires Distinct(earlier)
    ensures Distinct(earlier + tables) <==> forall x :: x in tables ==> multiset(earlier + tables)[x] <= 1
  {
    var all := earlier + tables;
    if Distinct(all) {
      forall x | x in tables ensures multiset(all)[x] <= 1 {
        DistinctCountsAtMostOne(all, x);
      }
    } else if forall x :: x in tables ==> multiset(all)[x] <= 1 {
      DistinctCounts(earlier);
      forall x | x in all ensures multiset(all)[x] == 1 {
        assert multiset(all)[x] == multiset(earlier)[x] + multiset(tables)[x];
        assert x in multiset(all);
        assert x in tables <==> x in multiset(tables);
      }
      CountsDistinct(all);
    }
  }

  lemma OrderedByOne(migrations: seq<EmbeddedMigration>, index: nat)
    requires index < |migrations| && Ordered(migrations[..index])
    ensures CheckMigration(migrations, index).None? <==> Ordered(migrations[..index + 1])
    ensures match CheckMigration(migrations, index)
            case None => true
            case Some(error) => error != Empty && error.index == index && Explains(migrations, error)
  {
    var now, tables := migrations[..index + 1], migrations[index].createdTables;
    assert now[..index] == migrations[..index] && TablesOf(now) == TablesOf(migrations[..index]) + tables;
    TablesChecked(tables, TablesOf(now), index);
    TablesStayDistinct(TablesOf(migrations[..index]), tables);
    HeadsByOne(migrations, index);
  }

  lemma HeadsByOne(migrations: seq<EmbeddedMigration>, index: nat)
    requires index < |migrations| && HeadsOrdered(migrations[..index])
    ensures HeadsOrdered(migrations[..index + 1]) <==>
              && ValidLogicalId(migrations[index].logicalId) && !Blank(migrations[index].sql)
              && (index > 0 ==>
                    && Before(migrations[index - 1].logicalId, migrations[index].logicalId)
                    && migrations[index - 1].logicalModelVersion <= migrations[index].logicalModelVersion)
  {
    var now, before := migrations[..index + 1], migrations[..index];
    assert forall i :: 0 <= i < index ==> now[i] == before[i];
    assert now[index] == migrations[index];
    if index > 0 && Before(migrations[index - 1].logicalId, migrations[index].logicalId) {
      forall i | 0 <= i < index ensures Before(now[i].logicalId, now[index].logicalId) {
        if i < index - 1 {
          assert Before(before[i].logicalId, before[index - 1].logicalId);
          BeforeTransitive(now[i].logicalId, migrations[index - 1].logicalId, now[index].logicalId);
        }
      }
    }
  }

  /** The verdict is right, and an error names the first migration at which the order breaks. */
  ghost predicate Decides(migrations: seq<EmbeddedMigration>, r: Result<(), ManifestError>) {
    && (r.Ok? <==> Ordered(migrations))
    && (r.Err? ==>
          && r.error != Empty && r.error.index < |migrations| && Explains(migrations, r.error)
          && Ordered(migrations[..r.error.index]) && !Ordered(migrations[..r.error.index + 1]))
  }

  lemma FaultDecides(migrations: seq<EmbeddedMigration>, index: nat)
    requires index < |migrations| && Ordered(migrations[..index]) && CheckMigration(migrations, index).Some?
    ensures Decides(migrations, Err(CheckMigration(migrations, index).value))
  {
    OrderedByOne(migrations, index);
    PrefixOrdered(migrations, index + 1);
  }

  lemma {:induction false} CheckedFrom(migrations: seq<EmbeddedMigration>, index: nat)
    requires index <= |migrations| && Ordered(migrations[..index])
    ensures Decides(migrations, CheckFrom(migrations, index))
    decreases |migrations| - index
  {
    if index == |migrations| {
      assert migrations[..index] == migrations;
    } else if CheckMigration(migrations, index).None? {
      OrderedByOne(migrations, index);
      CheckedFrom(migrations, index + 1);
    } else {
      FaultDecides(migrations, index);
    }
  }

  lemma PrefixOrdered(migrations: seq<EmbeddedMigration>, n: nat)
    requires n <= |migrations|
    ensures Ordered(migrations) ==> Ordered(migrations[..n])
  {
    PrefixTables(migrations, n);
    var all, some := TablesOf(migrations), TablesOf(migrations[..n]);
    assert forall i :: 0 <= i < |some| ==> some[i] == all[i];
  }

  lemma {:induction false} PrefixTables(migrations: seq<EmbeddedMigration>, n: nat)
    requires n <= |migrations|
    ensures TablesOf(migrations[..n]) <= TablesOf(migrations)
    decreases |migrations|
  {
    if n < |migrations| {
      var init := migrations[..|migrations| - 1];
      assert init[..n] == migrations[..n];
      PrefixTables(init, n);
    } else {
      assert migrations[..n] == migrations;
    }
  }

  /** A manifest passes exactly when it is non-empty and ordered; the error names the first migration
      at which the manifest stops being ordered, and is true of it. */
  lemma ManifestIsDecided(migrations: seq<EmbeddedMigration>)
    ensures ValidateManifest(migrations).Ok? <==> migrations != [] && Ordered(migrations)
    ensures match ValidateManifest(migrations)
            case Ok(_) => true
            case Err(Empty) => migrations == []
            case Err(error) =>
              && error.index < |migrations| && Explains(migrations, error)
              && Ordered(migrations[..error.index]) && !Ordered(migrations[..error.index + 1])
  {
    assert migrations[..0] == [];
    CheckedFrom(migrations, 0);
  }
}
