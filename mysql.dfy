/** The MySQL/MariaDB adapter (mysql.go): the table list, each table's DDL and
    rows, and the mytpl document. */
module MySQL {
  import opened Sql
  import opened Text
  import opened Records
  import opened Values

  /** createMySQLTableSQL: SHOW CREATE TABLE echoes a table name and the DDL.
      A failed query is returned as is; an echoed name other than the one
      asked for is a mismatch; otherwise the DDL is returned verbatim, NULL as "". */
  function CreateMySQLTableSQL(db: Database, name: string): (r: Result<string>)
    ensures db.createTable(name).Err? ==> r == Err(db.createTable(name).error)
    ensures db.createTable(name).Ok? ==>
      (r.Err? <==> StringOf(db.createTable(name).value.0) != name)
    ensures r.Err? && db.createTable(name).Ok? ==> r.error == TableMismatch
    ensures r.Ok? ==> r.value == StringOf(db.createTable(name).value.1)
  {
    match db.createTable(name)
    case Err(e) => Err(e)
    case Ok((echoed, ddl)) =>
      if StringOf(echoed) != name then Err(TableMismatch) else Ok(StringOf(ddl))
  }

  /** createMySQLTable: the record has the requested name, the DDL and the
      serialized rows, and no sequences; if either step fails there is no
      record, and the DDL's error comes first. */
  function CreateMySQLTable(db: Database, name: string): (r: Result<Table>)
    ensures r.Ok? <==> CreateMySQLTableSQL(db, name).Ok? && TableValues(db, name).Ok?
    ensures r.Ok? ==>
      r.value == Table(name, CreateMySQLTableSQL(db, name).value, "", TableValues(db, name).value)
    ensures CreateMySQLTableSQL(db, name).Err? ==> r == Err(CreateMySQLTableSQL(db, name).error)
    ensures CreateMySQLTableSQL(db, name).Ok? && TableValues(db, name).Err? ==>
      r == Err(TableValues(db, name).error)
  {
    match CreateMySQLTableSQL(db, name)
    case Err(e) => Err(e)
    case Ok(ddl) =>
      match TableValues(db, name)
      case Err(e) => Err(e)
      case Ok(values) => Ok(Table(name, ddl, "", values))
  }

  /** The queries createMySQLTable issues: the rows are read only after the
      DDL was obtained. */
  function TableQueries(db: Database, name: string): seq<Query>
  {
    [ShowCreateMySQLTable(name)] + if CreateMySQLTableSQL(db, name).Ok? then [SelectRows(name)] else []
  }

  function TableAttempt(db: Database, name: string): Attempt<Table>
  {
    Attempt(CreateMySQLTable(db, name), TableQueries(db, name))
  }

  /** createMySQLTable on each name, in order. */
  function Attempts(db: Database, names: seq<string>): (steps: seq<Attempt<Table>>)
    ensures |steps| == |names|
  {
    seq(|names|, i requires 0 <= i < |names| => TableAttempt(db, names[i]))
  }

  /** The same names with the queries on them put one after another. */
  lemma AttemptsAppend(db: Database, a: seq<string>, b: seq<string>)
    ensures Attempts(db, a + b) == Attempts(db, a) + Attempts(db, b)
  {
    var steps := Attempts(db, a + b);
    assert forall i :: 0 <= i < |a| ==> steps[i] == TableAttempt(db, a[i]);
    assert forall i :: |a| <= i < |a| + |b| ==> steps[i] == TableAttempt(db, b[i - |a|]);
  }

  /** The table names as Dump sees them: the list when getMySQLTables reports
      no error, and the error otherwise. It succeeds exactly when SHOW TABLES
      runs, every row is scanned and rows.Err() is nil, and then has one name
      per row, in server order. */
  function MySQLTableNames(db: Database): (r: Result<seq<string>>)
    ensures db.tableList.QueryFailed? ==> r == Err(db.tableList.error)
    ensures r.Ok? <==>
      db.tableList.Rows? && db.tableList.iterationError.None? &&
      forall i :: 0 <= i < |db.tableList.scans| ==> db.tableList.scans[i].Scanned?
    ensures r.Ok? ==>
      |r.value| == |db.tableList.scans| &&
      forall i :: 0 <= i < |r.value| ==> r.value[i] == StringOf(db.tableList.scans[i].value)
  {
    match db.tableList
    case QueryFailed(e) => Err(e)
    case Rows(scans, iterationError) =>
      ReadNamesFails(scans);
      var read := ReadNames(scans);
      if read.failure.Some? then Err(read.failure.value)
      else if iterationError.Some? then Err(iterationError.value)
      else
        ReadNamesAll(scans);
        Ok(read.names)
  }

  /** getMySQLTables: one name per row of SHOW TABLES, in server order, NULL
      read as ""; a failed scan ends the list with that error, and otherwise
      the error is rows.Err(). */
  method GetMySQLTables(db: Database) returns (tables: seq<string>, err: Option<Error>)
    ensures db.tableList.QueryFailed? ==> tables == [] && err == Some(db.tableList.error)
    ensures db.tableList.Rows? ==>
      var read := ReadNames(db.tableList.scans);
      tables == read.names && err == (if read.failure.Some? then read.failure else db.tableList.iterationError)
    ensures db.tableList.Rows? && (forall i :: 0 <= i < |db.tableList.scans| ==> db.tableList.scans[i].Scanned?) ==>
      |tables| == |db.tableList.scans| &&
      (forall i :: 0 <= i < |tables| ==> tables[i] == StringOf(db.tableList.scans[i].value)) &&
      err == db.tableList.iterationError
    ensures err.None? <==> MySQLTableNames(db).Ok?
    ensures err.None? ==> tables == MySQLTableNames(db).value
    ensures err.Some? ==> MySQLTableNames(db) == Err(err.value)
  {
    tables := [];
    match db.tableList {
      case QueryFailed(e) =>
        return [], Some(e);
      case Rows(scans, iterationError) =>
        ReadNamesFails(scans);
        var i := 0;
        while i < |scans|
          invariant 0 <= i <= |scans|
          invariant forall j :: 0 <= j < i ==> scans[j].Scanned?
          invariant ReadNames(scans[..i]) == NamesRead(tables, None)
        {
          assert scans[..i + 1][..i] == scans[..i];
          match scans[i] {
            case ScanFailed(e) =>
              assert FirstScanFailure(scans, i);
              ReadNamesStops(scans, i);
              return tables, Some(e);
            case Scanned(v) =>
              tables := tables + [StringOf(v)];
          }
          i := i + 1;
        }
        assert scans[..i] == scans;
        ReadNamesAll(scans);
        return tables, iterationError;
    }
  }

  /** What DumpMySQL returns, writes and queries: the first table error and
      nothing written, or no error and the rendered document. */
  function DumpMySQLOutcome(db: Database, data: Document, list: seq<string>, now: string): Outcome
  {
    Finish(RunInOrder(Attempts(db, list)), data, now)
  }

  /** DumpMySQL: builds a record for each listed name, in list order, and
      returns the first error without writing anything; otherwise it stamps
      the completion time and writes mytpl executed over the document. */
  method DumpMySQL(db: Database, data: Document, list: seq<string>, now: string)
    returns (out: Outcome, output: string)
    ensures out == DumpMySQLOutcome(db, data, list, now)
    ensures output == if out.document.Some? then Render(out.document.value) else ""
  {
    var steps := Attempts(db, list);
    var built: seq<Table> := [];
    var issued: seq<Query> := [];
    var i := 0;
    while i < |list|
      invariant 0 <= i <= |list|
      invariant RunInOrder(steps[..i]) == Attempt(Ok(built), issued)
    {
      var name := list[i];
      assert steps[i] == TableAttempt(db, name);
      PrefixSnoc(steps, i);
      RunInOrderSnoc(steps[..i], TableAttempt(db, name));
      issued := issued + TableQueries(db, name);
      match CreateMySQLTable(db, name) {
        case Err(e) =>
          RunInOrderPrefixFailed(steps, i + 1);
          return Outcome(Some(e), None, issued), "";
        case Ok(t) =>
          built := built + [t];
      }
      i := i + 1;
    }
    assert steps[..i] == steps;
    var doc := Completed(data, built, now);
    return Outcome(None, Some(doc), issued), Render(doc);
  }

  /** When the table at index k is the first to fail, DumpMySQL returns its
      error, writes nothing, and has queried only the tables up to k. */
  lemma DumpMySQLStops(db: Database, data: Document, list: seq<string>, now: string, k: int)
    requires 0 <= k < |list| && CreateMySQLTable(db, list[k]).Err?
    requires forall j :: 0 <= j < k ==> CreateMySQLTable(db, list[j]).Ok?
    ensures DumpMySQLOutcome(db, data, list, now) ==
      Outcome(Some(CreateMySQLTable(db, list[k]).error), None, IssuedBy(Attempts(db, list[..k + 1])))
  {
    var steps := Attempts(db, list);
    assert steps[..k + 1] == Attempts(db, list[..k + 1]);
    assert FirstFailure(steps, k);
    FinishStops(steps, data, now, k);
  }

  /** When every table succeeds, the document holds the given tables followed
      by one record per listed name, in list order. */
  lemma DumpMySQLSucceeds(db: Database, data: Document, list: seq<string>, now: string)
    requires forall i :: 0 <= i < |list| ==> CreateMySQLTable(db, list[i]).Ok?
    ensures var out := DumpMySQLOutcome(db, data, list, now);
      out.err == None && out.document.Some? && out.issued == IssuedBy(Attempts(db, list)) &&
      var doc := out.document.value;
      doc.completeTime == now &&
      doc.dumpVersion == data.dumpVersion && doc.serverVersion == data.serverVersion &&
      |doc.tables| == |data.tables| + |list| && doc.tables[..|data.tables|] == data.tables &&
      forall i :: 0 <= i < |list| ==> doc.tables[|data.tables| + i] == CreateMySQLTable(db, list[i]).value
  {
    var steps := Attempts(db, list);
    assert forall i :: 0 <= i < |list| ==> steps[i].result == CreateMySQLTable(db, list[i]);
    FinishAllOk(steps, data, now);
  }

  /** DumpMySQL fails exactly when one of the listed tables fails. */
  lemma DumpMySQLFailsIff(db: Database, data: Document, list: seq<string>, now: string)
    ensures DumpMySQLOutcome(db, data, list, now).err.Some? <==>
      exists i :: 0 <= i < |list| && CreateMySQLTable(db, list[i]).Err?
  {
    var steps := Attempts(db, list);
    FinishFailsIff(steps, data, now);
    if exists i :: 0 <= i < |list| && CreateMySQLTable(db, list[i]).Err? {
      var i :| 0 <= i < |list| && CreateMySQLTable(db, list[i]).Err?;
      assert steps[i].result.Err?;
    }
  }

  /** The session settings mytpl writes after the banner. */
  const Preamble: string :=
    "/*!40101 SET @OLD_CHARACTER_SET_CLIENT=@@CHARACTER_SET_CLIENT */;\n" +
    "/*!40101 SET @OLD_CHARACTER_SET_RESULTS=@@CHARACTER_SET_RESULTS */;\n" +
    "/*!40101 SET @OLD_COLLATION_CONNECTION=@@COLLATION_CONNECTION */;\n" +
    "/*!40101 SET NAMES utf8 */;\n" +
    "/*!40103 SET @OLD_TIME_ZONE=@@TIME_ZONE */;\n" +
    "/*!40103 SET TIME_ZONE='+00:00' */;\n" +
    "/*!40014 SET @OLD_UNIQUE_CHECKS=@@UNIQUE_CHECKS, UNIQUE_CHECKS=0 */;\n" +
    "/*!40014 SET @OLD_FOREIGN_KEY_CHECKS=@@FOREIGN_KEY_CHECKS, FOREIGN_KEY_CHECKS=0 */;\n" +
    "/*!40101 SET @OLD_SQL_MODE=@@SQL_MODE, SQL_MODE='NO_AUTO_VALUE_ON_ZERO' */;\n" +
    "/*!40111 SET @OLD_SQL_NOTES=@@SQL_NOTES, SQL_NOTES=0 */;\n"

  /** mytpl up to {{range .Tables}}. */
  function Header(doc: Document): string
  {
    "-- Go SQL Dump " + doc.dumpVersion + "\n" +
    "--\n" +
    "-- ------------------------------------------------------\n" +
    "-- Server version\t" + doc.serverVersion + "\n" +
    "\n" +
    Preamble +
    "\n" +
    "\n"
  }

  /** The {{ if .Values }} part of a block. */
  function InsertPart(t: Table): string
  {
    if t.values != "" then "\nINSERT INTO " + t.name + " VALUES " + t.values + ";\n" else ""
  }

  function LockLines(t: Table): string
  {
    "LOCK TABLES " + t.name + " WRITE;\n" +
    "/*!40000 ALTER TABLE " + t.name + " DISABLE KEYS */;\n"
  }

  function UnlockLines(t: Table): string
  {
    "/*!40000 ALTER TABLE " + t.name + " ENABLE KEYS */;\n" +
    "UNLOCK TABLES;\n"
  }

  /** The data section, from the LOCK line to the UNLOCK line. */
  function DataSection(t: Table): string
  {
    LockLines(t) + InsertPart(t) + "\n" + UnlockLines(t)
  }

  /** What a block holds before its DROP statement. */
  function BlockHead(t: Table): string
  {
    "\n--\n-- Table structure for table " + t.name + "\n--\n\n"
  }

  function DropLine(t: Table): string
  {
    "DROP TABLE IF EXISTS " + t.name + ";\n"
  }

  function CharsetLines(t: Table): string
  {
    "/*!40101 SET @saved_cs_client     = @@character_set_client */;\n" +
    "/*!40101 SET character_set_client = utf8 */;\n"
  }

  function DdlLine(t: Table): string
  {
    t.sql + ";\n"
  }

  /** From the line that restores the client charset to the blank line before LOCK. */
  function DataHead(t: Table): string
  {
    "/*!40101 SET character_set_client = @saved_cs_client */;\n" +
    "--\n" +
    "-- Dumping data for table " + t.name + "\n" +
    "--\n" +
    "\n"
  }

  /** The body of {{range .Tables}} for one table. */
  function Block(t: Table): string
  {
    BlockHead(t) + DropLine(t) + CharsetLines(t) + DdlLine(t) + DataHead(t) + DataSection(t)
  }

  function Footer(doc: Document): string
  {
    "\n-- Dump completed on " + doc.completeTime + "\n"
  }

  /** mytpl executed over a document. */
  function Render(doc: Document): string
  {
    Header(doc) + Each(doc.tables, Block) + Footer(doc)
  }

  /** The text mytpl renders holds one block per table in document order,
      each starting where the header and the blocks before it end. */
  lemma RenderLayout(doc: Document, i: int)
    requires 0 <= i < |doc.tables|
    ensures OccursAt(Render(doc), Block(doc.tables[i]), |Header(doc)| + |Each(doc.tables[..i], Block)|)
  {
    FramedLayout(Header(doc), doc.tables, Block, Footer(doc), i);
  }

  /** Each block holds, in this order: the DROP statement, the DDL followed by
      `;`, and the data section, which ends the block. */
  lemma BlockLayout(t: Table)
    ensures OccursAt(Block(t), DropLine(t), |BlockHead(t)|)
    ensures OccursAt(Block(t), DdlLine(t), |BlockHead(t)| + |DropLine(t)| + |CharsetLines(t)|)
    ensures OccursAt(Block(t), DataSection(t),
                     |BlockHead(t)| + |DropLine(t)| + |CharsetLines(t)| + |DdlLine(t)| + |DataHead(t)|)
  {
    PartsLayout(BlockHead(t), DropLine(t), CharsetLines(t), DdlLine(t), DataHead(t), DataSection(t));
  }

  /** The data section opens with the LOCK and DISABLE KEYS lines and closes
      with the ENABLE KEYS and UNLOCK lines; between them is the INSERT
      statement exactly when the table has values, and only an empty line
      otherwise. */
  lemma DataSectionLayout(t: Table)
    ensures OccursAt(DataSection(t), LockLines(t), 0)
    ensures OccursAt(DataSection(t), InsertPart(t), |LockLines(t)|)
    ensures OccursAt(DataSection(t), UnlockLines(t), |LockLines(t)| + |InsertPart(t)| + 1)
    ensures InsertPart(t) != "" <==> t.values != ""
    ensures t.values == "" ==> DataSection(t) == LockLines(t) + "\n" + UnlockLines(t)
  {
    FourParts(LockLines(t), InsertPart(t), "\n", UnlockLines(t));
    if t.values == "" {
      assert LockLines(t) + InsertPart(t) == LockLines(t);
    }
  }
}
