/** The part of database/sql and of the two servers that the dumper sees.
    Every answer a server can give to one of the dumper's queries is an input
    here: the dumper never executes anything, it only reads these answers. */
module Sql {

  datatype Option<+T> = None | Some(value: T)

  /** Errors the dumper can return. `Driver` stands for any error raised by the
      driver or the server (a failed query, a failed scan, a lost connection);
      the others are created by the dumper or by database/sql itself. */
  datatype Error =
    | Driver(message: string)
    | PathExists(path: string)
    | TableMismatch
    | NoRows

  datatype Result<+T> = Ok(value: T) | Err(error: Error)

  /** The text of each error as the Go code builds it (dump.go:36, mysql.go:120,
      and sql.ErrNoRows for a QueryRow that finds no row). */
  function Message(e: Error): (m: string)
    ensures e.PathExists? ==> m == "Dump '" + e.path + "' already exists."
    ensures e.TableMismatch? ==> m == "Returned table is not the same as requested table"
    ensures e.Driver? ==> m == e.message
  {
    match e
    case Driver(msg) => msg
    case PathExists(path) => "Dump '" + path + "' already exists."
    case TableMismatch => "Returned table is not the same as requested table"
    case NoRows => "sql: no rows in result set"
  }

  /** sql.NullString: NULL is `None`. */
  type NullString = Option<string>

  /** The `.String` field of a sql.NullString: the empty string for NULL. */
  function StringOf(s: NullString): (r: string)
    ensures s.Some? ==> r == s.value
    ensures s.None? ==> r == ""
  {
    match s
    case None => ""
    case Some(v) => v
  }

  /** One fetched row of a table, every cell already turned into text by the
      driver, NULL cells as `None`. */
  type Row = seq<NullString>

  /** Go's int64, the type the sequence parameters are scanned into. */
  newtype int64 = x: int | -0x8000_0000_0000_0000 <= x < 0x8000_0000_0000_0000

  /** The outcome of one `rows.Scan` inside a `rows.Next()` loop. */
  datatype Scan<T> = Scanned(value: T) | ScanFailed(error: Error)

  /** The answer to `db.Query`: either the query fails, or it yields rows, each
      of which is scanned in turn, and finally `rows.Err()`. */
  datatype RowSet<T> =
    | QueryFailed(error: Error)
    | Rows(scans: seq<Scan<T>>, iterationError: Option<Error>)

  /** One row of PG_GET_SEQ (postgres.go:148-156), in the order it is scanned. */
  datatype SequenceRow = SequenceRow(
    schema: NullString, dataType: NullString,
    start: int64, min: int64, max: int64, increment: int64)

  /** One row of the column query inside show_create_table (postgres.go:39-84). */
  datatype ColumnRecord = ColumnRecord(
    schemaName: string, tableName: string, columnName: string,
    columnType: string, defaultValue: string, notNull: string,
    attnum: int, maxAttnum: int)

  /** One row of the constraint query inside show_create_table (postgres.go:100-107). */
  datatype ConstraintRecord = ConstraintRecord(name: string, definition: string)

  /** What the catalog holds about one relation that show_create_table visits:
      its columns in attnum order and its constraints in catalog order. */
  datatype Relation = Relation(columns: seq<ColumnRecord>, constraints: seq<ConstraintRecord>)

  /** The server, as the answers it gives. Per-name queries are functions of
      the name; the server does not change while a dump runs. */
  datatype Database = Database(
    version: Result<NullString>,                          // SELECT version()
    tableList: RowSet<NullString>,                        // SHOW TABLES
    createTable: string -> Result<(NullString, NullString)>,  // SHOW CREATE TABLE <name>
    tableRows: string -> Result<seq<Row>>,                // the rows read from table <name>
    install: Option<Error>,                               // executing PG_SHOW_TABLE_SQL
    sequenceList: RowSet<NullString>,                     // PG_GET_SEQ_LIST
    sequence: string -> Result<SequenceRow>,              // PG_GET_SEQ with $1 = <name>
    showCreate: string -> Result<seq<Relation>>)          // relations show_create_table(<name>) visits, by relname

  /** The queries a dump issues, in the order it issues them. */
  datatype Query =
    | SelectVersion
    | ShowTables
    | ShowCreateMySQLTable(table: string)
    | SelectRows(table: string)
    | InstallProcedure
    | ListSequences
    | DescribeSequence(sequence: string)
    | CallShowCreateTable(table: string)

  /** The names read by a `rows.Next()` loop that scans one NullString per row
      and stops at the first failed scan. */
  datatype NamesRead = NamesRead(names: seq<string>, failure: Option<Error>)

  function ReadNames(scans: seq<Scan<NullString>>): NamesRead
    decreases |scans|
  {
    if scans == [] then NamesRead([], None)
    else
      var before := ReadNames(scans[..|scans| - 1]);
      if before.failure.Some? then before
      else match scans[|scans| - 1]
        case Scanned(v) => NamesRead(before.names + [StringOf(v)], None)
        case ScanFailed(e) => NamesRead(before.names, Some(e))
  }

  /** The first failed scan, if any, is at index k. */
  ghost predicate FirstScanFailure(scans: seq<Scan<NullString>>, k: int)
  {
    0 <= k < |scans| && scans[k].ScanFailed? && forall i :: 0 <= i < k ==> scans[i].Scanned?
  }

  /** With no failed scan, one name per row in row order, NULL read as "". */
  lemma {:induction false} ReadNamesAll(scans: seq<Scan<NullString>>)
    requires forall i :: 0 <= i < |scans| ==> scans[i].Scanned?
    ensures ReadNames(scans).failure == None
    ensures |ReadNames(scans).names| == |scans|
    ensures forall i :: 0 <= i < |scans| ==> ReadNames(scans).names[i] == StringOf(scans[i].value)
  {
    if scans != [] {
      ReadNamesAll(scans[..|scans| - 1]);
    }
  }

  /** The loop reports no failure exactly when every row was scanned. */
  lemma {:induction false} ReadNamesFails(scans: seq<Scan<NullString>>)
    ensures ReadNames(scans).failure.None? <==> forall i :: 0 <= i < |scans| ==> scans[i].Scanned?
    decreases |scans|
  {
    if scans != [] {
      var init := scans[..|scans| - 1];
      ReadNamesFails(init);
      assert forall i :: 0 <= i < |init| ==> init[i] == scans[i];
    }
  }

  /** A failed scan stops the loop: the names are those of the rows before it,
      and the error is that scan's. */
  lemma {:induction false} ReadNamesStops(scans: seq<Scan<NullString>>, k: int)
    requires FirstScanFailure(scans, k)
    ensures ReadNames(scans) == NamesRead(ReadNames(scans[..k]).names, Some(scans[k].error))
    ensures |ReadNames(scans[..k]).names| == k
    decreases |scans|
  {
    ReadNamesAll(scans[..k]);
    if |scans| == k + 1 {
      assert scans[..|scans| - 1] == scans[..k];
    } else {
      var init := scans[..|scans| - 1];
      assert init[..k] == scans[..k];
      ReadNamesStops(init, k);
    }
  }
}
