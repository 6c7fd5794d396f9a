# sqldump in Dafny

A model of the dump engine of grimdork/mysqldump (the Go package `sqldump`). It
exports a MySQL/MariaDB or PostgreSQL database into one SQL script, and it
works in four stages:

- `Dumper.Dump` (dump.go) refuses an existing dump path, creates the file and
  reads `SELECT version()`. It picks the dialect by a substring test for
  "PostgreSQL", then selects the tables asked for and builds one table record
  per table.
- The MySQL adapter (mysql.go) reads `SHOW TABLES`, each table's
  `SHOW CREATE TABLE` and its rows. It renders the `mytpl` template.
- The PostgreSQL adapter (postgres.go) installs the PL/pgSQL function
  `show_create_table` and rebuilds every sequence as `CREATE SEQUENCE`. It
  calls the function for each table's DDL and renders the `pgtpl` template.
- The row serializer `createTableValues` turns rows into a `VALUES` list.

The modules follow the program:

- `Sql` holds what the dumper sees of database/sql and of the server. Every
  answer the server can give to one of the dumper's queries is an input
  (`Database`). The queries a run issues are recorded as a trace (`Query`), so
  "nothing is queried before the path check" and "no later table is touched
  after an error" can be stated.
- `Text` models strings.Contains, strings.Builder and fmt's `%d`, with a
  reader for `%d` so that round trips can be stated. Its `Join` stands for
  the comma-joining done by the row serializer and by the column loop of
  `show_create_table`.
- `Records` holds the table record, the document, and the rule every table
  loop follows: names in order, stop at the first error (`RunInOrder`).
- `Values` is the row serializer.
- `MySQL` and `Postgres` are the two adapters. Each has its table loop as a
  method proved against a specification function, and its template as string
  concatenation that is byte for byte what `text/template` writes.
  `show_create_table` is modelled as two folds over the catalog rows, with
  PL/pgSQL's NULL-propagating `||`.
- `Dump` is `Dumper.Dump`: the method, its specification `DumpSpec`, and the
  end-to-end properties.

The source is in the middle of a refactor and does not compile as one package:

- dump.go:1 declares package `mysqldump`, while mysql.go:1 and postgres.go:1
  declare `sqldump`.
- The `table` struct (dump.go:12-16) has no `Sequences` field, but
  postgres.go:253 and the `pgtpl` template use one.
- dump.go:57 calls `d.DumpPostgres(filters...)`, but the method is declared
  as `DumpPostgres(data dump, list ...string)`.
- dump.go:61 and dump.go:73 call the free functions `getMySQLTables(d.db)`
  and `createMySQLTable(d.db, name)`, but both are defined as methods.
- `DumpMySQL` and `DumpPostgres` write to `data.file`, which the `dump`
  struct does not have.
- `Dump` inlines its own MySQL table loop instead of calling `DumpMySQL`.

The model takes one consistent reading:

- A record is `Table(name, sql, sequences, values)`.
- The PostgreSQL path receives the document built so far and the filter
  names verbatim, in the order given, repetitions included.
- With no filters, the PostgreSQL path therefore dumps no table at all,
  because nothing calls `getPostgresTables`.
- The MySQL path keeps `Dump`'s own loop; `DumpMySQL` is modelled as well.
- Each adapter writes the rendered text to the dump file.

Further facts about the code that the model keeps:

- Both templates open with the banner `-- Go SQL Dump` (mysql.go:10,
  postgres.go:125).
- `CREATE SEQUENCE` puts each parameter on its own tab-indented line
  (postgres.go:277).
- The PostgreSQL path receives the filter list as given (dump.go:57), and
  nothing calls `getPostgresTables`.
- `dropProcedure` runs nothing and returns nil (postgres.go:229-233), so the
  helper function stays installed.
- `DumpPostgres` ignores the result of `t.Execute` (postgres.go:184).
- When a PostgreSQL table's column number 1 has been dropped,
  `show_create_table` gives NULL, the record's DDL is "", and its block
  writes a bare `;` where the CREATE TABLE statement belongs
  (postgres.go:136); restoring that table's INSERT then fails.

## Model

| member | source | states |
|---|---|---|
| Sql.Message | dump.go:36 | the path error reads "Dump '<path>' already exists."; the echo mismatch reads the fixed text of mysql.go:120; driver errors pass through unchanged |
| Sql.StringOf | mysql.go:87-91 | a NULL string reads as "", any other as its value |
| Sql.ReadNamesAll | mysql.go:86-93 | with no failed scan the loop yields one name per row, in row order, NULL as "" |
| Sql.ReadNamesFails | mysql.go:86-92 | the scan loop reports no failure exactly when every row scans |
| Sql.ReadNamesStops | mysql.go:86-90 | the first failed scan ends the loop with its error, keeping the names of the k rows before it |
| Text.ContainsIff | dump.go:56 | strings.Contains holds exactly when the marker occurs at some index (both directions) |
| Text.ConcatLayout | postgres.go:244-253 | in a strings.Builder, each written part starts where the parts written before it end |
| Text.FramedLayout | postgres.go:130-143 | a range block sits after the header and the blocks of the items before it |
| Text.EachLayout | mysql.go:27-48 | the text of a range over items is each item's text in item order |
| Text.FormatIntOneLine | postgres.go:277 | %d never writes a line break |
| Text.FormatIntRoundTrip | postgres.go:276-279 | %d is read back exactly, negative numbers included |
| Text.DigitsRoundTrip | postgres.go:276-279 | the digits %d writes for a natural number read back as that number |
| Records.RunInOrderAllOk | mysql.go:55-61 | when every table succeeds, the loop yields each record in list order and issues every table's queries |
| Records.RunInOrderStops | mysql.go:55-61 | the first failing table ends the loop with its error, after the queries of the tables up to it |
| Records.RunInOrderFails | mysql.go:55-61 | the loop fails exactly when some table fails, and then with the first failure's error |
| Records.RunInOrderPrefixFailed | mysql.go:58-60 | once a table has failed, later tables change nothing |
| Records.FinishAllOk | mysql.go:53-64 | on success the document keeps the given tables, appends one record per step in order, and is stamped with the completion time |
| Records.FinishStops | mysql.go:55-61 | on the first failure there is its error, no document, and only the queries up to it |
| Records.FinishFailsIff | mysql.go:53-72 | a dump has a document exactly when it has no error |
| Values.TableValues | dump_test.go:162-235 | a failed read is returned unchanged; otherwise the VALUES text of the rows read (ValuesLiteral), empty exactly when the table has no rows |
| Values.CellRoundTrip | dump_test.go:199-230 | each cell is read back from its literal, so NULL, "null" and "" stay distinct |
| Values.ValuesEmptyIff | mysql.go:43-45 | the VALUES text is empty exactly for a table with no rows, so the INSERT statement appears exactly for tables with rows |
| Values.ValuesAppend | dump_test.go:192 | rows are written in row order, separated by commas without spaces |
| Values.RowSnoc | dump_test.go:192 | a row of any length is its cells in column order, comma-separated, in parentheses: one more cell adds a comma and its literal |
| Values.NullAndEmptyCells | dump_test.go:207-230 | NULL is the bare token `null`, and the empty string is `''` |
| Values.NoQuoteEscaping | dump_test.go:192 | embedded quotes are not escaped: one cell can serialize exactly like two |
| MySQL.CreateMySQLTableSQL | mysql.go:111-124 | a query error passes through; an echoed name other than the one asked for is the mismatch error, in both directions; otherwise the DDL verbatim |
| MySQL.CreateMySQLTable | mysql.go:96-109 | a record exists exactly when both the DDL and the rows are read; it has the asked name, that DDL and those values; the DDL's error comes first |
| MySQL.MySQLTableNames | mysql.go:75-94 | the table list succeeds exactly when SHOW TABLES runs, every row scans and rows.Err() is nil, and then has one name per row in server order |
| MySQL.GetMySQLTables | mysql.go:75-94 | the method returns the names read so far and the first scan error, or rows.Err(); its error is nil exactly when MySQLTableNames succeeds, and it then returns that list |
| MySQL.DumpMySQL | mysql.go:53-73 | the table loop equals the first-error specification, and the text written is mytpl over the document, or nothing on error |
| MySQL.DumpMySQLStops | mysql.go:55-61 | the first failing listed table gives its error, no document, and no queries about later tables |
| MySQL.DumpMySQLSucceeds | mysql.go:53-64 | when every listed table succeeds: no error, one record per name in list order, completion time set |
| MySQL.DumpMySQLFailsIff | mysql.go:55-61 | DumpMySQL fails exactly when some listed table fails |
| MySQL.RenderLayout | mysql.go:27-48 | mytpl's output holds one block per table in document order, after the header |
| MySQL.BlockLayout | mysql.go:28-47 | each block holds, in order, the DROP line, the DDL followed by ";", and the data section |
| MySQL.DataSectionLayout | mysql.go:41-47 | LOCK/DISABLE KEYS, then INSERT exactly when the table has values, then ENABLE KEYS/UNLOCK |
| Postgres.GetStringRows | postgres.go:190-201 | one name per row in row order, NULL as ""; the first failed scan discards all names and returns its error; otherwise rows.Err() |
| Postgres.SequenceNames | postgres.go:213-220 | the sequence list succeeds exactly when the query runs, every row scans and rows.Err() is nil, and then has one name per row |
| Postgres.GetPostgresSequences | postgres.go:213-220 | the method's error is nil exactly when SequenceNames succeeds, and it then returns that list |
| Postgres.SequenceParamsRoundTrip | postgres.go:276-279 | the sequence text is read back with increment, start, minimum and maximum each on its own keyword's line, in the order of the Sprintf arguments |
| Postgres.CreatePostgresSequenceSQL | postgres.go:266-281 | a lookup error passes through; a found sequence always yields a statement |
| Postgres.SequenceStatement | postgres.go:266-281 | the statement begins "CREATE SEQUENCE schema.name" and reads back to the looked-up parameters |
| Postgres.SequencesPartOk | postgres.go:239-253 | the sequence part succeeds exactly when the list is read and every sequence is found, with one statement per sequence in list order |
| Postgres.Append | postgres.go:89 | PL/pgSQL string concatenation: the result is NULL exactly when the text is NULL, otherwise the concatenation |
| Postgres.FoldColumnsSomeIff | postgres.go:85-96 | the column loop yields a text exactly when it had one or meets column number 1 |
| Postgres.FoldConstraintsSomeIff | postgres.go:99-113 | the constraint loop preserves NULL and non-NULL |
| Postgres.ShowCreateTableNullIff | postgres.go:85-115 | show_create_table returns NULL exactly when no column has number 1, and otherwise text ending in ");" |
| Postgres.ColumnStepFirst | postgres.go:86-95 | column 1 restarts the DDL with CREATE TABLE schema.table ( and its definition |
| Postgres.ColumnStepLater | postgres.go:88-95 | a later column appends "," and its definition |
| Postgres.FoldColumnsNumbered | postgres.go:85-96 | for catalog-ordered columns the loop yields the head and the column definitions joined by commas |
| Postgres.FoldConstraintsFrom | postgres.go:98-113 | the constraint loop appends each constraint's text in catalog order |
| Postgres.ShowCreateTableNumbered | postgres.go:85-115 | for an ordinary table the DDL is head, column definitions joined by commas, each constraint, then ");" |
| Postgres.CreatePostgresTableSQL | postgres.go:283-287 | a call error passes through; no row is sql.ErrNoRows; otherwise what show_create_table returns for the first relation, NULL read as "", so "" exactly when no column is numbered 1 |
| Postgres.PostgresTableDdl | postgres.go:235-264 | a PostgreSQL record of an ordinary table carries the DDL: CREATE TABLE head, column definitions joined by commas, each constraint, then ");" |
| Postgres.WriteSequences | postgres.go:244-253 | the builder loop equals the first-error specification, and the buffer is every statement concatenated in order |
| Postgres.CreatePostgresTable | postgres.go:235-264 | the method equals the specification: sequences, then the DDL, then the rows, the first error ending it, with the queries in that order |
| Postgres.PostgresTableOk | postgres.go:235-264 | a record exists exactly when the sequences, DDL and rows are read; it then holds the name, DDL, rows, and each sequence statement in list order |
| Postgres.SequencesInEveryTable | postgres.go:239-253 | every table's record holds the same sequence statements, whatever the table |
| Postgres.DumpPostgres | postgres.go:160-188 | the method equals the specification; the text written is pgtpl over the document, or nothing on error |
| Postgres.DumpPostgresInstallFails | postgres.go:162-165 | a failed install returns its error with no document and no other query |
| Postgres.DumpPostgresStops | postgres.go:167-173 | the first failing table gives its error and no document, after queries only up to it |
| Postgres.DumpPostgresSucceeds | postgres.go:160-188 | install and all tables succeed: nil error (dropProcedure's), one record per listed name in list order, time stamped |
| Postgres.DumpPostgresFailsIff | postgres.go:160-188 | DumpPostgres fails exactly when the install or some listed table fails |
| Postgres.RenderLayout | postgres.go:125-145 | pgtpl's output holds one block per table in document order, after the header |
| Postgres.BlockLayout | postgres.go:130-143 | each block holds, in order, DROP, the sequence statements, the DDL followed by ";", and the data part |
| Postgres.DataTailIff | postgres.go:140-142 | the INSERT statement appears exactly when the table has values |
| Dump.GetServerVersion | dump.go:104-110 | the version text, NULL as ""; on error "" and the error; the error is absent exactly when the query succeeds |
| Dump.IsPostgresIff | dump.go:56 | the dialect is PostgreSQL exactly when "PostgreSQL" occurs in the version text |
| Dump.FilterSet | dump.go:29-32 | the filter map's keys are exactly the filter names, and the map is empty exactly when there are no filters |
| Dump.SelectMembers | dump.go:67-72 | a table is selected exactly when the server lists it and it was asked for |
| Dump.SelectAppend | dump.go:68-78 | selection keeps server order |
| Dump.SelectSnoc | dump.go:68-72 | one more server table is appended exactly when it was asked for |
| Dump.SelectRestrict | dump.go:29-32 | filter names the server lacks, and repeated filters, change nothing |
| Dump.SelectAll | dump.go:67-86 | when every table is asked for, every table is selected |
| Dump.DumpSpec | dump.go:28-102 | an existing path is the path error with no file and no query; the file exists exactly when os.Create succeeds; the first query is always SELECT version() |
| Dump.Dump | dump.go:28-102 | the method equals DumpSpec, and the file holds the dialect's template over the document, or nothing |
| Dump.CreateSelectedTables | dump.go:67-78 | the filtered loop equals the first-error run over the selected tables in server order |
| Dump.CreateAllTables | dump.go:79-86 | the unfiltered loop equals the first-error run over all tables in server order |
| Dump.DumpDialect | dump.go:51-61 | after the version, the next query installs show_create_table exactly when "PostgreSQL" occurs in it, and is SHOW TABLES otherwise |
| Dump.SelectedIff | dump.go:66-87 | on MySQL a table is dumped exactly when the server lists it and either there are no filters or it is one of them |
| Dump.DumpOnMySQL | dump.go:60-90 | on MySQL, the dump is the first-error run over the selected tables, after SELECT version() and SHOW TABLES |
| Dump.DumpMySQLFailsIff | dump.go:66-87 | on MySQL, Dump returns nil exactly when every selected table's CREATE statement and values are read |
| Dump.DumpMySQLTables | dump.go:60-90 | on MySQL, when every selected table succeeds: no error, and one record per selected table in server order, with the server version and the completion time |
| Dump.DumpStopsAtFirstError | dump.go:66-87 | on MySQL, the first failing selected table gives its error, no document, and no queries about later tables |
| Dump.PostgresWithoutFilters | dump.go:56-58 | on PostgreSQL with no filters, the dump succeeds with no tables after only SELECT version() and the install |
| Dump.PostgresFiltersAsGiven | dump.go:56-58 | on PostgreSQL, one record per filter in filter order, repetitions included |

## Left out

- The file system is an input (`Target`): whether the path exists, and the error `os.Create` returns. The `exists` helper and `f.Close()` are not part of this model.
- dumper.go (`Register`, `Path`, `Close`) is not part of this model; `NewDumper` and the page size (`SetMaxRows`), which the tests call, are defined outside the modelled files.
- The server's answers are taken to stay the same for the whole dump (`Sql.Database`). The source runs separate queries with no transaction, so a schema change between `SHOW TABLES` and the later reads is not modelled.
- Queries are not executed. The catalog SQL (`PG_SHOW_TABLES`, `PG_GET_SEQ_LIST`, `PG_GET_SEQ`, the joins inside `show_create_table`) is represented by its answers (`Sql.Database`).
- In `show_create_table`, the regular-expression match on `relname` and the catalog ordering of relations are given by the answer `showCreate(name)`. Only the first relation's text is used, because `QueryRow` reads one row.
- The template engine is replaced by the text it produces for `mytpl` and `pgtpl`. Template parse errors cannot happen for these fixed templates and are not modelled.
- `Dump.Dump`: the error that `t.Execute` returns on the MySQL path (dump.go:97-99), an I/O failure while writing, is not modelled; a dump that gets that far always writes its text and returns nil.
- `MySQL.DumpMySQL`: the error from `t.Execute` (an I/O failure while writing) is not modelled; a successful dump always writes its text.
- `time.Now().String()` is the input `now`.
- `createTableValues` is modelled only from what dump_test.go asserts: one query per table, no pagination (`LIMIT`/`OFFSET`), and no `ErrNoColumns`. Its Go source is not part of this model.
- `getPostgresTables` is not modelled, because nothing calls it.
- postgres_test.go is not part of this model.
- Quote escaping is not added, since the source has none. `Values.NoQuoteEscaping` states the consequence.
- `Postgres.CreatePostgresSequenceSQL`: its own contract states only success and error; the text of the statement is stated by `Postgres.SequenceStatement` and `Postgres.SequenceParamsRoundTrip`.
- `Postgres.DumpPostgres`: the text written is modelled even though the Go code ignores `t.Execute`'s result; a failure while writing is not modelled.
- `dropProcedure` always returns nil and runs nothing, so no query for it appears in the trace.
- Go's `%d` is modelled on the int64 values scanned; `int64` is a bounded newtype, so no wrap-around arises.
