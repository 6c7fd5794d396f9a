/** Dumper.Dump (dump.go): refuse an existing dump path, ask the server for
    its version, pick the dialect from it, select the tables asked for, and
    hand over to the MySQL or the PostgreSQL adapter. */
module Dump {
  import opened Sql
  import opened Text
  import opened Records
  import MySQL
  import Postgres

  /** What the file system says about the dump path: whether something is
      already there (exists), and the error os.Create would return. */
  datatype Target = Target(path: string, taken: bool, createError: Option<Error>)

  /** What Dump ends with: the error returned, the document the template was
      executed over (when it was), the queries issued, and whether the dump
      file was created. */
  datatype DumpResult = DumpResult(
    err: Option<Error>, document: Option<Document>, issued: seq<Query>, created: bool)

  /** getServerVersion: the text of SELECT version(), NULL read as ""; on an
      error, "" and the error. */
  function GetServerVersion(db: Database): (r: (string, Option<Error>))
    ensures r.1.None? <==> db.version.Ok?
    ensures r.1.Some? ==> r == ("", Some(db.version.error))
    ensures db.version == Ok(None) ==> r == ("", None)
    ensures db.version.Ok? && db.version.value.Some? ==> r == (db.version.value.value, None)
  {
    match db.version
    case Err(e) => ("", Some(e))
    case Ok(v) => (StringOf(v), None)
  }

  /** The dialect test: a server whose version text contains "PostgreSQL"
      anywhere is dumped as PostgreSQL, any other as MySQL. */
  function IsPostgres(version: string): bool
  {
    Contains(version, "PostgreSQL")
  }

  lemma IsPostgresIff(version: string)
    ensures IsPostgres(version) <==> exists i :: OccursAt(version, "PostgreSQL", i)
  {
    ContainsIff(version, "PostgreSQL");
  }

  /** The filter names as a set: order and repetition are forgotten. */
  ghost function Keys(filters: seq<string>): set<string>
  {
    set x | x in filters
  }

  /** The map Dump builds from its filter arguments. */
  method FilterSet(filters: seq<string>) returns (keep: set<string>)
    ensures keep == Keys(filters)
    ensures keep == {} <==> filters == []
  {
    keep := {};
    var i := 0;
    while i < |filters|
      invariant 0 <= i <= |filters|
      invariant keep == Keys(filters[..i])
    {
      assert filters[..i + 1] == filters[..i] + [filters[i]];
      keep := keep + {filters[i]};
      i := i + 1;
    }
    assert filters[..i] == filters;
    if filters != [] {
      assert filters[0] in keep;
    }
  }

  /** The server's tables that are in `keep`, in server order. */
  function Select(names: seq<string>, keep: set<string>): seq<string>
    decreases |names|
  {
    if names == [] then []
    else
      var last := names[|names| - 1];
      Select(names[..|names| - 1], keep) + if last in keep then [last] else []
  }

  /** A name is selected exactly when the server has it and it was asked for. */
  lemma {:induction false} SelectMembers(names: seq<string>, keep: set<string>, x: string)
    ensures x in Select(names, keep) <==> x in names && x in keep
    decreases |names|
  {
    if names != [] {
      var init := names[..|names| - 1];
      SelectMembers(init, keep, x);
      assert names == init + [names[|names| - 1]];
    }
  }

  /** Selection keeps server order: selecting from two runs of names is
      selecting from each and putting the results one after the other. */
  lemma {:induction false} SelectAppend(a: seq<string>, b: seq<string>, keep: set<string>)
    ensures Select(a + b, keep) == Select(a, keep) + Select(b, keep)
    decreases |b|
  {
    if b == [] {
      assert a + b == a;
    } else {
      var b' := b[..|b| - 1];
      assert (a + b)[..|a + b| - 1] == a + b';
      SelectAppend(a, b', keep);
    }
  }

  /** One more name of the server's list: it is selected, after the ones
      before it, exactly when it was asked for. */
  lemma SelectSnoc(names: seq<string>, keep: set<string>, i: int)
    requires 0 <= i < |names|
    ensures names[i] !in keep ==> Select(names[..i + 1], keep) == Select(names[..i], keep)
    ensures names[i] in keep ==> Select(names[..i + 1], keep) == Select(names[..i], keep) + [names[i]]
  {
    assert names[..i + 1][..i] == names[..i];
    if names[i] !in keep {
      assert Select(names[..i], keep) + [] == Select(names[..i], keep);
    }
  }

  /** Only the names the server has matter: filters the server does not have,
      and repeated filters, change nothing. */
  lemma {:induction false} SelectRestrict(names: seq<string>, keep: set<string>, keep': set<string>)
    requires forall x :: x in names ==> (x in keep <==> x in keep')
    ensures Select(names, keep) == Select(names, keep')
    decreases |names|
  {
    if names != [] {
      var init := names[..|names| - 1];
      assert forall x :: x in init ==> x in names;
      SelectRestrict(init, keep, keep');
    }
  }

  /** When every name is asked for, every name is selected. */
  lemma {:induction false} SelectAll(names: seq<string>, keep: set<string>)
    requires forall i :: 0 <= i < |names| ==> names[i] in keep
    ensures Select(names, keep) == names
    decreases |names|
  {
    if names != [] {
      SelectAll(names[..|names| - 1], keep);
    }
  }

  /** The tables the MySQL path dumps: the selected ones when there are
      filters, all of them otherwise. */
  ghost function Selected(tables: seq<string>, filters: seq<string>): seq<string>
  {
    if Keys(filters) != {} then Select(tables, Keys(filters)) else tables
  }

  /** The MySQL path after SELECT version(): SHOW TABLES, then the selected
      tables in server order. */
  ghost function MySQLPath(db: Database, data: Document, filters: seq<string>, now: string): Outcome
  {
    match MySQL.MySQLTableNames(db)
    case Err(e) => Outcome(Some(e), None, [ShowTables])
    case Ok(tables) =>
      var out := MySQL.DumpMySQLOutcome(db, data, Selected(tables, filters), now);
      out.(issued := [ShowTables] + out.issued)
  }

  /** What Dump does, as a specification. An existing path or a failed
      os.Create ends it before any query; a failed version query after the
      file was created; otherwise the dialect decides. The PostgreSQL path
      receives the filter names as given. */
  ghost function DumpSpec(db: Database, target: Target, filters: seq<string>, now: string): (r: DumpResult)
    ensures target.taken ==> r == DumpResult(Some(PathExists(target.path)), None, [], false)
    ensures !target.taken ==> (r.created <==> target.createError.None?)
    ensures r.issued != [] ==> r.issued[0] == SelectVersion && r.created
  {
    if target.taken then DumpResult(Some(PathExists(target.path)), None, [], false)
    else if target.createError.Some? then DumpResult(target.createError, None, [], false)
    else
      var (version, versionError) := GetServerVersion(db);
      if versionError.Some? then DumpResult(versionError, None, [SelectVersion], true)
      else
        var data := Document(DumpVersion, version, [], "");
        var out :=
          if IsPostgres(version) then Postgres.DumpPostgresOutcome(db, data, filters, now)
          else MySQLPath(db, data, filters, now);
        DumpResult(out.err, out.document, [SelectVersion] + out.issued, true)
  }

  /** The path was free, the file was created and the server answered
      SELECT version(). */
  ghost predicate Connected(db: Database, target: Target)
  {
    !target.taken && target.createError.None? && db.version.Ok?
  }

  function Version(db: Database): string
    requires db.version.Ok?
  {
    StringOf(db.version.value)
  }

  /** The dialect is chosen by a plain substring test: the query after
      SELECT version() installs show_create_table exactly when the version
      text contains "PostgreSQL", and is SHOW TABLES otherwise. */
  lemma DumpDialect(db: Database, target: Target, filters: seq<string>, now: string)
    requires Connected(db, target)
    ensures var r := DumpSpec(db, target, filters, now);
      |r.issued| >= 2 &&
      (r.issued[1] == InstallProcedure <==> exists i :: OccursAt(Version(db), "PostgreSQL", i)) &&
      (r.issued[1] != InstallProcedure ==> r.issued[1] == ShowTables)
  {
    IsPostgresIff(Version(db));
  }

  /** A table is dumped on MySQL exactly when the server lists it and either
      no filter was given or it is one of the filters. */
  lemma SelectedIff(tables: seq<string>, filters: seq<string>, x: string)
    ensures x in Selected(tables, filters) <==> x in tables && (filters == [] || x in filters)
  {
    if filters == [] {
      assert Keys(filters) == {};
    } else {
      assert filters[0] in Keys(filters);
      SelectMembers(tables, Keys(filters), x);
    }
  }

  /** On MySQL, once the table list is read, Dump is DumpMySQL over the
      selected tables, after SELECT version() and SHOW TABLES. */
  lemma DumpOnMySQL(db: Database, target: Target, filters: seq<string>, now: string)
    requires Connected(db, target) && !IsPostgres(Version(db))
    requires MySQL.MySQLTableNames(db).Ok?
    ensures var out := MySQL.DumpMySQLOutcome(db, Document(DumpVersion, Version(db), [], ""),
                                              Selected(MySQL.MySQLTableNames(db).value, filters), now);
      DumpSpec(db, target, filters, now) ==
        DumpResult(out.err, out.document, [SelectVersion, ShowTables] + out.issued, true)
  {
    var data := Document(DumpVersion, Version(db), [], "");
    var out := MySQL.DumpMySQLOutcome(db, data, Selected(MySQL.MySQLTableNames(db).value, filters), now);
    assert [SelectVersion] + ([ShowTables] + out.issued) == [SelectVersion, ShowTables] + out.issued;
  }

  /** On MySQL, once the table list is read, Dump succeeds exactly when every
      selected table does. */
  lemma DumpMySQLFailsIff(db: Database, target: Target, filters: seq<string>, now: string)
    requires Connected(db, target) && !IsPostgres(Version(db))
    requires MySQL.MySQLTableNames(db).Ok?
    ensures var sel := Selected(MySQL.MySQLTableNames(db).value, filters);
      DumpSpec(db, target, filters, now).err.None? <==>
        forall i :: 0 <= i < |sel| ==> MySQL.CreateMySQLTable(db, sel[i]).Ok?
  {
    var sel := Selected(MySQL.MySQLTableNames(db).value, filters);
    DumpOnMySQL(db, target, filters, now);
    MySQL.DumpMySQLFailsIff(db, Document(DumpVersion, Version(db), [], ""), sel, now);
  }

  /** On MySQL, when every selected table succeeds, Dump returns nil and
      dumps one record per selected table, in server order, under the
      server's version and stamped with the completion time. */
  lemma DumpMySQLTables(db: Database, target: Target, filters: seq<string>, now: string)
    requires Connected(db, target) && !IsPostgres(Version(db))
    requires MySQL.MySQLTableNames(db).Ok?
    requires var sel := Selected(MySQL.MySQLTableNames(db).value, filters);
      forall i :: 0 <= i < |sel| ==> MySQL.CreateMySQLTable(db, sel[i]).Ok?
    ensures var sel := Selected(MySQL.MySQLTableNames(db).value, filters);
      var r := DumpSpec(db, target, filters, now);
      r.err == None && r.document.Some? &&
      var doc := r.document.value;
      doc.completeTime == now && doc.serverVersion == Version(db) && |doc.tables| == |sel| &&
      forall i :: 0 <= i < |sel| ==> doc.tables[i].name == sel[i]
  {
    var sel := Selected(MySQL.MySQLTableNames(db).value, filters);
    DumpOnMySQL(db, target, filters, now);
    MySQL.DumpMySQLSucceeds(db, Document(DumpVersion, Version(db), [], ""), sel, now);
  }

  /** On MySQL, the first selected table that fails ends the dump with its
      error, no document, and no query about any later table. */
  lemma DumpStopsAtFirstError(db: Database, target: Target, filters: seq<string>, now: string, k: int)
    requires Connected(db, target) && !IsPostgres(Version(db))
    requires MySQL.MySQLTableNames(db).Ok?
    requires var sel := Selected(MySQL.MySQLTableNames(db).value, filters);
      0 <= k < |sel| && MySQL.CreateMySQLTable(db, sel[k]).Err? &&
      forall j :: 0 <= j < k ==> MySQL.CreateMySQLTable(db, sel[j]).Ok?
    ensures var sel := Selected(MySQL.MySQLTableNames(db).value, filters);
      DumpSpec(db, target, filters, now) ==
        DumpResult(Some(MySQL.CreateMySQLTable(db, sel[k]).error), None,
                   [SelectVersion, ShowTables] + IssuedBy(MySQL.Attempts(db, sel[..k + 1])), true)
  {
    var sel := Selected(MySQL.MySQLTableNames(db).value, filters);
    var data := Document(DumpVersion, Version(db), [], "");
    DumpOnMySQL(db, target, filters, now);
    MySQL.DumpMySQLStops(db, data, sel, now, k);
  }

  /** On PostgreSQL, Dump without filters dumps no table at all: nothing
      asks the server for its table list. */
  lemma PostgresWithoutFilters(db: Database, target: Target, now: string)
    requires Connected(db, target) && IsPostgres(Version(db)) && db.install.None?
    ensures var r := DumpSpec(db, target, [], now);
      r.err == None && r.document.Some? && r.document.value.tables == [] &&
      r.issued == [SelectVersion, InstallProcedure]
  {
    var data := Document(DumpVersion, Version(db), [], "");
    Postgres.DumpPostgresSucceeds(db, data, [], now);
    assert IssuedBy(Postgres.PostgresAttempts(db, [])) == [];
  }

  /** On PostgreSQL, the filters are the table list, taken as given: when all
      succeed there is one record per filter, in filter order, repeated
      filters included, whether or not the server has such a table name. */
  lemma PostgresFiltersAsGiven(db: Database, target: Target, filters: seq<string>, now: string)
    requires Connected(db, target) && IsPostgres(Version(db)) && db.install.None?
    requires forall i :: 0 <= i < |filters| ==> Postgres.PostgresTableAttempt(db, filters[i]).result.Ok?
    ensures var r := DumpSpec(db, target, filters, now);
      r.err == None && r.document.Some? && |r.document.value.tables| == |filters| &&
      forall i :: 0 <= i < |filters| ==> r.document.value.tables[i].name == filters[i]
  {
    var data := Document(DumpVersion, Version(db), [], "");
    Postgres.DumpPostgresSucceeds(db, data, filters, now);
    forall i | 0 <= i < |filters|
      ensures Postgres.PostgresTableAttempt(db, filters[i]).result.value.name == filters[i]
    {
      Postgres.PostgresTableOk(db, filters[i]);
    }
  }

  /** The text the dump file holds afterwards: the template of the version's
      dialect executed over the document, or nothing. */
  function Written(db: Database, document: Option<Document>): string
  {
    match document
    case None => ""
    case Some(doc) =>
      if IsPostgres(GetServerVersion(db).0) then Postgres.Render(doc) else MySQL.Render(doc)
  }

  /** Dumper.Dump. */
  method Dump(db: Database, target: Target, filters: seq<string>, now: string)
    returns (res: DumpResult, written: string)
    ensures res == DumpSpec(db, target, filters, now)
    ensures written == Written(db, res.document)
  {
    var keep := FilterSet(filters);
    if target.taken {
      return DumpResult(Some(PathExists(target.path)), None, [], false), "";
    }
    if target.createError.Some? {
      return DumpResult(target.createError, None, [], false), "";
    }
    var (version, versionError) := GetServerVersion(db);
    if versionError.Some? {
      return DumpResult(versionError, None, [SelectVersion], true), "";
    }
    var data := Document(DumpVersion, version, [], "");
    if Contains(version, "PostgreSQL") {
      var out, text := Postgres.DumpPostgres(db, data, filters, now);
      return DumpResult(out.err, out.document, [SelectVersion] + out.issued, true), text;
    }
    var tables, err := MySQL.GetMySQLTables(db);
    if err.Some? {
      return DumpResult(err, None, [SelectVersion] + [ShowTables], true), "";
    }
    var built, tableError, tableIssued;
    if keep != {} {
      built, tableError, tableIssued := CreateSelectedTables(db, tables, keep);
    } else {
      built, tableError, tableIssued := CreateAllTables(db, tables);
    }
    if tableError.Some? {
      return DumpResult(tableError, None, [SelectVersion] + ([ShowTables] + tableIssued), true), "";
    }
    var doc := Completed(data, built, now);
    return DumpResult(None, Some(doc), [SelectVersion] + ([ShowTables] + tableIssued), true), MySQL.Render(doc);
  }

  /** The table loop of Dump with filters: the server's tables that were
      asked for, in server order, stopping at the first error. */
  method CreateSelectedTables(db: Database, tables: seq<string>, keep: set<string>)
    returns (built: seq<Table>, err: Option<Error>, issued: seq<Query>)
    ensures var run := RunInOrder(MySQL.Attempts(db, Select(tables, keep)));
      issued == run.issued &&
      (run.result.Ok? ==> err == None && built == run.result.value) &&
      (run.result.Err? ==> err == Some(run.result.error))
  {
    built, err, issued := [], None, [];
    var i := 0;
    while i < |tables|
      invariant 0 <= i <= |tables|
      invariant RunInOrder(MySQL.Attempts(db, Select(tables[..i], keep))) == Attempt(Ok(built), issued)
    {
      var name := tables[i];
      SelectSnoc(tables, keep, i);
      if name !in keep {
        i := i + 1;
        continue;
      }
      var before := Select(tables[..i], keep);
      MySQL.AttemptsAppend(db, before, [name]);
      RunInOrderSnoc(MySQL.Attempts(db, before), MySQL.TableAttempt(db, name));
      issued := issued + MySQL.TableQueries(db, name);
      match MySQL.CreateMySQLTable(db, name) {
        case Err(e) =>
          var upTo := Select(tables[..i + 1], keep);
          assert tables == tables[..i + 1] + tables[i + 1..];
          SelectAppend(tables[..i + 1], tables[i + 1..], keep);
          MySQL.AttemptsAppend(db, upTo, Select(tables[i + 1..], keep));
          assert MySQL.Attempts(db, Select(tables, keep))[..|upTo|] == MySQL.Attempts(db, upTo);
          RunInOrderPrefixFailed(MySQL.Attempts(db, Select(tables, keep)), |upTo|);
          return built, Some(e), issued;
        case Ok(t) =>
          built := built + [t];
      }
      i := i + 1;
    }
    assert tables[..i] == tables;
  }

  /** The table loop of Dump without filters: every table, in server order,
      stopping at the first error. */
  method CreateAllTables(db: Database, tables: seq<string>)
    returns (built: seq<Table>, err: Option<Error>, issued: seq<Query>)
    ensures var run := RunInOrder(MySQL.Attempts(db, tables));
      issued == run.issued &&
      (run.result.Ok? ==> err == None && built == run.result.value) &&
      (run.result.Err? ==> err == Some(run.result.error))
  {
    built, err, issued := [], None, [];
    var steps := MySQL.Attempts(db, tables);
    var i := 0;
    while i < |tables|
      invariant 0 <= i <= |tables|
      invariant RunInOrder(steps[..i]) == Attempt(Ok(built), issued)
    {
      var name := tables[i];
      assert steps[i] == MySQL.TableAttempt(db, name);
      PrefixSnoc(steps, i);
      RunInOrderSnoc(steps[..i], MySQL.TableAttempt(db, name));
      issued := issued + MySQL.TableQueries(db, name);
      match MySQL.CreateMySQLTable(db, name) {
        case Err(e) =>
          RunInOrderPrefixFailed(steps, i + 1);
          return built, Some(e), issued;
        case Ok(t) =>
          built := built + [t];
      }
      i := i + 1;
    }
    assert steps[..i] == steps;
  }
}
