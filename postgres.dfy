/** The PostgreSQL adapter (postgres.go): the installed show_create_table
    procedure, the sequence definitions, each table's record, and the pgtpl
    document. */
module Postgres {
  import opened Sql
  import opened Text
  import opened Records
  import opened Values

  /** getStringRows: one name per row, NULL read as "", then rows.Err(); a
      failed scan discards every name read so far and returns its error. */
  method GetStringRows(scans: seq<Scan<NullString>>, iterationError: Option<Error>)
    returns (list: seq<string>, err: Option<Error>)
    ensures ReadNames(scans).failure.Some? ==> list == [] && err == ReadNames(scans).failure
    ensures ReadNames(scans).failure.None? ==> list == ReadNames(scans).names && err == iterationError
    ensures forall k :: FirstScanFailure(scans, k) ==> list == [] && err == Some(scans[k].error)
    ensures (forall i :: 0 <= i < |scans| ==> scans[i].Scanned?) ==>
      |list| == |scans| && (forall i :: 0 <= i < |list| ==> list[i] == StringOf(scans[i].value)) &&
      err == iterationError
  {
    list := [];
    var i := 0;
    while i < |scans|
      invariant 0 <= i <= |scans|
      invariant forall j :: 0 <= j < i ==> scans[j].Scanned?
      invariant ReadNames(scans[..i]) == NamesRead(list, None)
    {
      assert scans[..i + 1][..i] == scans[..i];
      match scans[i] {
        case ScanFailed(e) =>
          assert FirstScanFailure(scans, i);
          ReadNamesStops(scans, i);
          return [], Some(e);
        case Scanned(v) =>
          list := list + [StringOf(v)];
      }
      i := i + 1;
    }
    assert scans[..i] == scans;
    ReadNamesAll(scans);
    return list, iterationError;
  }

  /** The sequence names as createPostgresTable sees them: the list when
      getPostgresSequences reports no error, and the error otherwise. It
      succeeds exactly when the query runs, every row is scanned and
      rows.Err() is nil, and then has one name per row, in row order. */
  function SequenceNames(db: Database): (r: Result<seq<string>>)
    ensures db.sequenceList.QueryFailed? ==> r == Err(db.sequenceList.error)
    ensures r.Ok? <==>
      db.sequenceList.Rows? && db.sequenceList.iterationError.None? &&
      forall i :: 0 <= i < |db.sequenceList.scans| ==> db.sequenceList.scans[i].Scanned?
    ensures r.Ok? ==>
      |r.value| == |db.sequenceList.scans| &&
      forall i :: 0 <= i < |r.value| ==> r.value[i] == StringOf(db.sequenceList.scans[i].value)
  {
    match db.sequenceList
    case QueryFailed(e) => Err(e)
    case Rows(scans, iterationError) =>
      ReadNamesFails(scans);
      var read := ReadNames(scans);
      if read.failure.Some? then Err(read.failure.value)
      else if iterationError.Some? then Err(iterationError.value)
      else
        ReadNamesAll(scans);
        Ok(read.names)
  }

  /** getPostgresSequences: PG_GET_SEQ_LIST read with getStringRows. */
  method GetPostgresSequences(db: Database) returns (list: seq<string>, err: Option<Error>)
    ensures err.None? <==> SequenceNames(db).Ok?
    ensures err.None? ==> list == SequenceNames(db).value
    ensures err.Some? ==> SequenceNames(db) == Err(err.value)
  {
    match db.sequenceList {
      case QueryFailed(e) =>
        return [], Some(e);
      case Rows(scans, iterationError) =>
        ReadNamesFails(scans);
        list, err := GetStringRows(scans, iterationError);
    }
  }

  /** One parameter line of a CREATE SEQUENCE statement: a keyword and an
      int64 written with %d. */
  function ParamLine(keyword: string, v: int64): string
  {
    "\n\t" + keyword + " " + FormatInt(v as int)
  }

  const CacheLine: string := "\n\tCACHE 1;\n\n"

  /** The text after "CREATE SEQUENCE schema.name": increment, start,
      minimum and maximum, then CACHE 1 and an empty line. */
  function SequenceParams(row: SequenceRow): string
  {
    ParamLine("INCREMENT", row.increment) + (ParamLine("START", row.start) +
      (ParamLine("MINVALUE", row.min) + (ParamLine("MAXVALUE", row.max) + CacheLine)))
  }

  function SequenceHead(schema: string, name: string): string
  {
    "CREATE SEQUENCE " + schema + "." + name
  }

  /** The statement createPostgresSequenceSQL writes for a sequence; a NULL
      schema is written as the empty string. */
  function SequenceSQL(name: string, row: SequenceRow): string
  {
    SequenceHead(StringOf(row.schema), name) + SequenceParams(row)
  }

  /** The four numbers of a CREATE SEQUENCE statement, by the keyword that
      labels them. */
  datatype SequenceParameters = SequenceParameters(increment: int, start: int, min: int, max: int)

  /** The text up to the first line break, and the rest from the break on. */
  function TakeLine(s: string): (string, string)
    decreases |s|
  {
    if s == [] || s[0] == '\n' then ("", s)
    else
      var (line, rest) := TakeLine(s[1..]);
      ([s[0]] + line, rest)
  }

  lemma {:induction false} TakeLineAppend(a: string, b: string)
    requires forall i :: 0 <= i < |a| ==> a[i] != '\n'
    requires b == [] || b[0] == '\n'
    ensures TakeLine(a + b) == (a, b)
    decreases |a|
  {
    if a == [] {
      assert a + b == b;
    } else {
      assert (a + b)[1..] == a[1..] + b;
      TakeLineAppend(a[1..], b);
      assert [a[0]] + a[1..] == a;
    }
  }

  /** Reads one parameter line with the given keyword: its number and the
      text after the line. */
  function ReadParam(s: string, keyword: string): Option<(int, string)>
  {
    var prefix := "\n\t" + keyword + " ";
    if |prefix| <= |s| && s[..|prefix|] == prefix then
      var (line, rest) := TakeLine(s[|prefix|..]);
      match ParseInt(line)
      case Some(v) => Some((v, rest))
      case None => None
    else None
  }

  /** Reads back the text after the head of a CREATE SEQUENCE statement. */
  function ParseParams(s: string): Option<SequenceParameters>
  {
    match ReadParam(s, "INCREMENT")
    case None => None
    case Some((increment, s1)) =>
      match ReadParam(s1, "START")
      case None => None
      case Some((start, s2)) =>
        match ReadParam(s2, "MINVALUE")
        case None => None
        case Some((min, s3)) =>
          match ReadParam(s3, "MAXVALUE")
          case None => None
          case Some((max, s4)) =>
            if s4 == CacheLine then Some(SequenceParameters(increment, start, min, max)) else None
  }

  lemma ReadParamLine(keyword: string, v: int64, rest: string)
    requires rest != [] && rest[0] == '\n'
    ensures ReadParam(ParamLine(keyword, v) + rest, keyword) == Some((v as int, rest))
  {
    var prefix := "\n\t" + keyword + " ";
    var digits := FormatInt(v as int);
    var s := ParamLine(keyword, v) + rest;
    assert s == prefix + (digits + rest);
    assert s[..|prefix|] == prefix;
    assert s[|prefix|..] == digits + rest;
    FormatIntOneLine(v as int);
    TakeLineAppend(digits, rest);
    FormatIntRoundTrip(v as int);
  }

  /** Each number of a sequence is written on the line of its own keyword:
      reading the statement back recovers increment, start, minimum and
      maximum in that role. */
  lemma SequenceParamsRoundTrip(row: SequenceRow)
    ensures ParseParams(SequenceParams(row)) ==
      Some(SequenceParameters(row.increment as int, row.start as int, row.min as int, row.max as int))
  {
    var r4 := CacheLine;
    var r3 := ParamLine("MAXVALUE", row.max) + r4;
    var r2 := ParamLine("MINVALUE", row.min) + r3;
    var r1 := ParamLine("START", row.start) + r2;
    ReadParamLine("MAXVALUE", row.max, r4);
    ReadParamLine("MINVALUE", row.min, r3);
    ReadParamLine("START", row.start, r2);
    ReadParamLine("INCREMENT", row.increment, r1);
  }

  /** createPostgresSequenceSQL: a failed lookup is returned as is, and a
      found sequence always yields a statement. */
  function CreatePostgresSequenceSQL(db: Database, name: string): (r: Result<string>)
    ensures db.sequence(name).Err? ==> r == Err(db.sequence(name).error)
    ensures r.Ok? <==> db.sequence(name).Ok?
  {
    match db.sequence(name)
    case Err(e) => Err(e)
    case Ok(row) => Ok(SequenceSQL(name, row))
  }

  /** The statement for a found sequence names schema.sequence and carries
      the looked-up increment, start, minimum and maximum, each on its
      keyword's line. */
  lemma SequenceStatement(db: Database, name: string)
    requires db.sequence(name).Ok?
    ensures var row := db.sequence(name).value;
      var text := CreatePostgresSequenceSQL(db, name).value;
      var head := SequenceHead(StringOf(row.schema), name);
      |head| <= |text| && text[..|head|] == head &&
      ParseParams(text[|head|..]) ==
        Some(SequenceParameters(row.increment as int, row.start as int, row.min as int, row.max as int))
  {
    var row := db.sequence(name).value;
    var text := SequenceSQL(name, row);
    var head := SequenceHead(StringOf(row.schema), name);
    assert text[..|head|] == head && text[|head|..] == SequenceParams(row);
    SequenceParamsRoundTrip(row);
  }

  function SequenceAttempt(db: Database, name: string): Attempt<string>
  {
    Attempt(CreatePostgresSequenceSQL(db, name), [DescribeSequence(name)])
  }

  /** createPostgresSequenceSQL on each name, in order. */
  function SequenceAttempts(db: Database, names: seq<string>): (steps: seq<Attempt<string>>)
    ensures |steps| == |names|
  {
    seq(|names|, i requires 0 <= i < |names| => SequenceAttempt(db, names[i]))
  }

  /** The sequence part of createPostgresTable: list the sequences, then
      write each one's statement in list order, stopping at the first error. */
  function SequencesPart(db: Database): Attempt<seq<string>>
  {
    match SequenceNames(db)
    case Err(e) => Attempt(Err(e), [ListSequences])
    case Ok(names) =>
      var run := RunInOrder(SequenceAttempts(db, names));
      Attempt(run.result, [ListSequences] + run.issued)
  }

  /** The sequence part succeeds exactly when the list is read and every
      sequence is found, and then holds one statement per listed sequence,
      in list order. */
  lemma SequencesPartOk(db: Database)
    ensures SequencesPart(db).result.Ok? <==>
      SequenceNames(db).Ok? &&
      forall i :: 0 <= i < |SequenceNames(db).value| ==> db.sequence(SequenceNames(db).value[i]).Ok?
    ensures SequencesPart(db).result.Ok? ==>
      var names := SequenceNames(db).value;
      var texts := SequencesPart(db).result.value;
      |texts| == |names| &&
      forall i :: 0 <= i < |names| ==> texts[i] == SequenceSQL(names[i], db.sequence(names[i]).value)
  {
    if SequenceNames(db).Ok? {
      var names := SequenceNames(db).value;
      var steps := SequenceAttempts(db, names);
      assert forall i :: 0 <= i < |names| ==> steps[i].result == CreatePostgresSequenceSQL(db, names[i]);
      RunInOrderFails(steps);
      if AllOk(steps) {
        RunInOrderAllOk(steps);
      }
    }
  }

  /** PL/pgSQL's `||`: a NULL operand makes the whole text NULL. */
  function Append(ddl: Option<string>, s: string): (r: Option<string>)
    ensures r.Some? <==> ddl.Some?
    ensures r.Some? ==> r.value == ddl.value + s
  {
    match ddl
    case None => None
    case Some(d) => Some(d + s)
  }

  /** What show_create_table opens a table's DDL with. */
  function CreateHead(c: ColumnRecord): string
  {
    "CREATE TABLE " + c.schemaName + "." + c.tableName + " ("
  }

  /** One column definition, on its own indented line. */
  function ColumnDef(c: ColumnRecord): string
  {
    "\n    \"" + c.columnName + "\" " + c.columnType + " " + c.defaultValue + " " + c.notNull
  }

  /** One pass of the column loop: column 1 starts the DDL afresh, any other
      column first appends a comma; then the definition is appended when the
      column number is within the table's largest. */
  function ColumnStep(ddl: Option<string>, c: ColumnRecord): Option<string>
  {
    var started := if c.attnum == 1 then Some(CreateHead(c)) else Append(ddl, ",");
    if c.attnum <= c.maxAttnum then Append(started, ColumnDef(c)) else started
  }

  /** The column loop over the columns in attnum order. */
  function FoldColumns(ddl: Option<string>, columns: seq<ColumnRecord>): Option<string>
    decreases |columns|
  {
    if columns == [] then ddl
    else ColumnStep(FoldColumns(ddl, columns[..|columns| - 1]), columns[|columns| - 1])
  }

  /** What one pass of the constraint loop appends. */
  function ConstraintText(k: ConstraintRecord): string
  {
    ",\n" + "CONSTRAINT " + k.name + "\n    " + k.definition
  }

  /** The constraint loop. */
  function FoldConstraints(ddl: Option<string>, constraints: seq<ConstraintRecord>): Option<string>
    decreases |constraints|
  {
    if constraints == [] then ddl
    else Append(FoldConstraints(ddl, constraints[..|constraints| - 1]), ConstraintText(constraints[|constraints| - 1]))
  }

  /** The text show_create_table returns for the first relation it visits:
      v_table_ddl starts out NULL, goes through the column loop and the
      constraint loop, and is closed with ");". */
  function ShowCreateTable(rel: Relation): Option<string>
  {
    Append(FoldConstraints(FoldColumns(None, rel.columns), rel.constraints), ");")
  }

  /** The column loop yields a text exactly when it started with one or meets
      column number 1. */
  lemma {:induction false} FoldColumnsSomeIff(ddl: Option<string>, columns: seq<ColumnRecord>)
    ensures FoldColumns(ddl, columns).Some? <==>
      ddl.Some? || exists i :: 0 <= i < |columns| && columns[i].attnum == 1
    decreases |columns|
  {
    if columns != [] {
      var init := columns[..|columns| - 1];
      FoldColumnsSomeIff(ddl, init);
      assert forall i :: 0 <= i < |init| ==> init[i] == columns[i];
    }
  }

  /** The constraint loop never turns a NULL text into a text, nor the
      reverse. */
  lemma {:induction false} FoldConstraintsSomeIff(ddl: Option<string>, constraints: seq<ConstraintRecord>)
    ensures FoldConstraints(ddl, constraints).Some? <==> ddl.Some?
    decreases |constraints|
  {
    if constraints != [] {
      FoldConstraintsSomeIff(ddl, constraints[..|constraints| - 1]);
    }
  }

  /** show_create_table returns NULL exactly for a relation none of whose
      live columns has number 1 (its first column was dropped); otherwise a
      text ending in ");". */
  lemma ShowCreateTableNullIff(rel: Relation)
    ensures ShowCreateTable(rel).None? <==>
      forall i :: 0 <= i < |rel.columns| ==> rel.columns[i].attnum != 1
    ensures ShowCreateTable(rel).Some? ==>
      |ShowCreateTable(rel).value| >= 2 &&
      ShowCreateTable(rel).value[|ShowCreateTable(rel).value| - 2..] == ");"
  {
    FoldColumnsSomeIff(None, rel.columns);
    FoldConstraintsSomeIff(FoldColumns(None, rel.columns), rel.constraints);
  }

  /** The columns as the catalog lists them for an ordinary table: column 1
      comes first and only once, and no number exceeds the largest. */
  ghost predicate Numbered(columns: seq<ColumnRecord>)
  {
    |columns| > 0 && columns[0].attnum == 1 &&
    (forall i :: 0 < i < |columns| ==> columns[i].attnum != 1) &&
    (forall i :: 0 <= i < |columns| ==> columns[i].attnum <= columns[i].maxAttnum)
  }

  function ColumnDefs(columns: seq<ColumnRecord>): (defs: seq<string>)
    ensures |defs| == |columns|
  {
    seq(|columns|, i requires 0 <= i < |columns| => ColumnDef(columns[i]))
  }

  /** Column 1 starts the text afresh, whatever came before. */
  lemma ColumnStepFirst(ddl: Option<string>, c: ColumnRecord)
    requires c.attnum == 1 <= c.maxAttnum
    ensures ColumnStep(ddl, c) == Some(CreateHead(c) + ColumnDef(c))
  {
  }

  /** Any later column adds a comma and its definition. */
  lemma ColumnStepLater(ddl: string, c: ColumnRecord)
    requires c.attnum != 1 && c.attnum <= c.maxAttnum
    ensures ColumnStep(Some(ddl), c) == Some(ddl + "," + ColumnDef(c))
  {
  }

  /** One more column that is not column 1: the loop adds a comma and its
      definition, so the definitions stay joined by commas. */
  lemma FoldColumnsNext(columns: seq<ColumnRecord>, j: int, head: string)
    requires 2 <= j <= |columns|
    requires columns[j - 1].attnum != 1 && columns[j - 1].attnum <= columns[j - 1].maxAttnum
    requires FoldColumns(None, columns[..j - 1]) == Some(head + Join(ColumnDefs(columns)[..j - 1], ","))
    ensures FoldColumns(None, columns[..j]) == Some(head + Join(ColumnDefs(columns)[..j], ","))
  {
    var defs := ColumnDefs(columns);
    var before := Join(defs[..j - 1], ",");
    assert columns[..j][..j - 1] == columns[..j - 1];
    JoinSnoc(defs, j, ",");
    ColumnStepLater(head + before, columns[j - 1]);
    assert head + before + "," + defs[j - 1] == head + (before + "," + defs[j - 1]);
  }

  /** For catalog-ordered columns, the column loop over the first j columns
      yields the head and their definitions joined by commas. */
  lemma {:induction false} FoldColumnsNumbered(columns: seq<ColumnRecord>, j: int)
    requires Numbered(columns) && 1 <= j <= |columns|
    ensures FoldColumns(None, columns[..j]) == Some(CreateHead(columns[0]) + Join(ColumnDefs(columns)[..j], ","))
    decreases j
  {
    if j == 1 {
      assert columns[..1][..0] == [];
      ColumnStepFirst(None, columns[0]);
      assert ColumnDefs(columns)[..1] == [ColumnDef(columns[0])];
    } else {
      FoldColumnsNumbered(columns, j - 1);
      FoldColumnsNext(columns, j, CreateHead(columns[0]));
    }
  }

  lemma {:induction false} FoldConstraintsFrom(ddl: string, constraints: seq<ConstraintRecord>)
    ensures FoldConstraints(Some(ddl), constraints) == Some(ddl + Each(constraints, ConstraintText))
    decreases |constraints|
  {
    if constraints != [] {
      var init := constraints[..|constraints| - 1];
      var last := ConstraintText(constraints[|constraints| - 1]);
      FoldConstraintsFrom(ddl, init);
      assert FoldConstraints(Some(ddl), constraints) == Append(FoldConstraints(Some(ddl), init), last);
      assert Each(constraints, ConstraintText) == Each(init, ConstraintText) + last;
      assert ddl + Each(init, ConstraintText) + last == ddl + (Each(init, ConstraintText) + last);
    } else {
      assert ddl + "" == ddl;
    }
  }

  /** For an ordinary table, the DDL is CREATE TABLE schema.table ( followed
      by the column definitions in attnum order separated by commas, then
      each constraint in catalog order, then ");". */
  lemma ShowCreateTableNumbered(rel: Relation)
    requires Numbered(rel.columns)
    ensures ShowCreateTable(rel) ==
      Some(CreateHead(rel.columns[0]) + Join(ColumnDefs(rel.columns), ",") +
           Each(rel.constraints, ConstraintText) + ");")
  {
    FoldColumnsNumbered(rel.columns, |rel.columns|);
    assert rel.columns[..|rel.columns|] == rel.columns;
    assert ColumnDefs(rel.columns)[..|rel.columns|] == ColumnDefs(rel.columns);
    FoldConstraintsFrom(CreateHead(rel.columns[0]) + Join(ColumnDefs(rel.columns), ","), rel.constraints);
  }

  /** createPostgresTableSQL: the first row of select show_create_table($1).
      A failed call is returned as is; no row at all is sql.ErrNoRows;
      otherwise the text for the first relation, "" when it is NULL. */
  function CreatePostgresTableSQL(db: Database, name: string): (r: Result<string>)
    ensures db.showCreate(name).Err? ==> r == Err(db.showCreate(name).error)
    ensures db.showCreate(name) == Ok([]) ==> r == Err(NoRows)
    ensures db.showCreate(name).Ok? && db.showCreate(name).value != [] ==>
      r == Ok(StringOf(ShowCreateTable(db.showCreate(name).value[0]))) &&
      (r.value == "" <==>
        forall i :: 0 <= i < |db.showCreate(name).value[0].columns| ==>
          db.showCreate(name).value[0].columns[i].attnum != 1)
  {
    match db.showCreate(name)
    case Err(e) => Err(e)
    case Ok(rels) =>
      if rels == [] then Err(NoRows)
      else
        ShowCreateTableNullIff(rels[0]);
        Ok(StringOf(ShowCreateTable(rels[0])))
  }

  /** createPostgresTable on one name, as a specification: the sequences
      first, then the DDL, then the rows; the first error ends it. */
  function PostgresTableAttempt(db: Database, name: string): Attempt<Table>
  {
    var part := SequencesPart(db);
    match part.result
    case Err(e) => Attempt(Err(e), part.issued)
    case Ok(texts) =>
      var afterDdl := part.issued + [CallShowCreateTable(name)];
      match CreatePostgresTableSQL(db, name)
      case Err(e) => Attempt(Err(e), afterDdl)
      case Ok(ddl) =>
        var afterRows := afterDdl + [SelectRows(name)];
        match TableValues(db, name)
        case Err(e) => Attempt(Err(e), afterRows)
        case Ok(values) => Attempt(Ok(Table(name, ddl, Concat(texts), values)), afterRows)
  }

  /** The strings.Builder loop of createPostgresTable: each sequence's
      statement appended in list order; the first failed lookup ends it with
      its error. */
  method WriteSequences(db: Database, names: seq<string>) returns (r: Result<string>, described: seq<Query>)
    ensures var run := RunInOrder(SequenceAttempts(db, names));
      described == run.issued &&
      (run.result.Ok? ==> r == Ok(Concat(run.result.value))) &&
      (run.result.Err? ==> r == Err(run.result.error))
  {
    var steps := SequenceAttempts(db, names);
    ghost var texts: seq<string> := [];
    var buf := "";
    described := [];
    var i := 0;
    while i < |names|
      invariant 0 <= i <= |names|
      invariant RunInOrder(steps[..i]) == Attempt(Ok(texts), described)
      invariant buf == Concat(texts)
    {
      var s := names[i];
      assert steps[i] == SequenceAttempt(db, s);
      PrefixSnoc(steps, i);
      RunInOrderSnoc(steps[..i], SequenceAttempt(db, s));
      described := described + [DescribeSequence(s)];
      match CreatePostgresSequenceSQL(db, s) {
        case Err(e) =>
          RunInOrderPrefixFailed(steps, i + 1);
          return Err(e), described;
        case Ok(text) =>
          assert (texts + [text])[..|texts|] == texts;
          texts := texts + [text];
          buf := buf + text;
      }
      i := i + 1;
    }
    assert steps[..i] == steps;
    return Ok(buf), described;
  }

  /** createPostgresTable: the statements of all the server's sequences go
      into the record, whatever table it is for, then its DDL and its rows. */
  method CreatePostgresTable(db: Database, name: string) returns (t: Result<Table>, issued: seq<Query>)
    ensures Attempt(t, issued) == PostgresTableAttempt(db, name)
  {
    issued := [ListSequences];
    var sequences, err := GetPostgresSequences(db);
    if err.Some? {
      return Err(err.value), issued;
    }
    var buf, described := WriteSequences(db, sequences);
    issued := issued + described;
    if buf.Err? {
      return Err(buf.error), issued;
    }
    issued := issued + [CallShowCreateTable(name)];
    var ddl := CreatePostgresTableSQL(db, name);
    if ddl.Err? {
      return Err(ddl.error), issued;
    }
    issued := issued + [SelectRows(name)];
    var values := TableValues(db, name);
    if values.Err? {
      return Err(values.error), issued;
    }
    return Ok(Table(name, ddl.value, buf.value, values.value)), issued;
  }

  /** A table record exists exactly when every sequence, the DDL and the rows
      are read; it then carries the table's name, its DDL and its rows, and
      the statements of all the server's sequences, each starting where the
      ones listed before it end. */
  lemma PostgresTableOk(db: Database, name: string)
    ensures PostgresTableAttempt(db, name).result.Ok? <==>
      SequencesPart(db).result.Ok? && CreatePostgresTableSQL(db, name).Ok? && TableValues(db, name).Ok?
    ensures PostgresTableAttempt(db, name).result.Ok? ==>
      var t := PostgresTableAttempt(db, name).result.value;
      var texts := SequencesPart(db).result.value;
      t.name == name && t.sql == CreatePostgresTableSQL(db, name).value &&
      t.values == TableValues(db, name).value && t.sequences == Concat(texts) &&
      forall i :: 0 <= i < |texts| ==> OccursAt(t.sequences, texts[i], |Concat(texts[..i])|)
  {
    if PostgresTableAttempt(db, name).result.Ok? {
      var texts := SequencesPart(db).result.value;
      forall i | 0 <= i < |texts|
        ensures OccursAt(Concat(texts), texts[i], |Concat(texts[..i])|)
      {
        ConcatLayout(texts, i);
      }
    }
  }

  /** The DDL a PostgreSQL record carries for an ordinary table (its columns
      in attnum order from 1): the CREATE TABLE head, the column definitions
      separated by commas, each constraint, then ");". */
  lemma PostgresTableDdl(db: Database, name: string)
    requires PostgresTableAttempt(db, name).result.Ok?
    requires db.showCreate(name).Ok? && db.showCreate(name).value != []
    requires Numbered(db.showCreate(name).value[0].columns)
    ensures var rel := db.showCreate(name).value[0];
      PostgresTableAttempt(db, name).result.value.sql ==
        CreateHead(rel.columns[0]) + Join(ColumnDefs(rel.columns), ",") +
        Each(rel.constraints, ConstraintText) + ");"
  {
    ShowCreateTableNumbered(db.showCreate(name).value[0]);
  }

  /** Every table of a dump carries the same sequence statements: they do not
      depend on the table. */
  lemma SequencesInEveryTable(db: Database, a: string, b: string)
    requires PostgresTableAttempt(db, a).result.Ok? && PostgresTableAttempt(db, b).result.Ok?
    ensures PostgresTableAttempt(db, a).result.value.sequences ==
            PostgresTableAttempt(db, b).result.value.sequences
  {
    PostgresTableOk(db, a);
    PostgresTableOk(db, b);
  }

  /** createPostgresTable on each name, in order. */
  function PostgresAttempts(db: Database, names: seq<string>): (steps: seq<Attempt<Table>>)
    ensures |steps| == |names|
  {
    seq(|names|, i requires 0 <= i < |names| => PostgresTableAttempt(db, names[i]))
  }

  /** What DumpPostgres returns and queries: a failed installation of
      show_create_table ends it at once; otherwise the first table error, or
      no error (dropProcedure always returns nil) and the completed document. */
  function DumpPostgresOutcome(db: Database, data: Document, list: seq<string>, now: string): Outcome
  {
    if db.install.Some? then Outcome(db.install, None, [InstallProcedure])
    else
      var out := Finish(RunInOrder(PostgresAttempts(db, list)), data, now);
      out.(issued := [InstallProcedure] + out.issued)
  }

  /** DumpPostgres: installs show_create_table, builds a record for each
      listed name in list order, returns the first error without writing
      anything; otherwise stamps the completion time and writes pgtpl
      executed over the document. */
  method DumpPostgres(db: Database, data: Document, list: seq<string>, now: string)
    returns (out: Outcome, output: string)
    ensures out == DumpPostgresOutcome(db, data, list, now)
    ensures output == if out.document.Some? then Render(out.document.value) else ""
  {
    if db.install.Some? {
      return Outcome(db.install, None, [InstallProcedure]), "";
    }
    var steps := PostgresAttempts(db, list);
    var built: seq<Table> := [];
    var issued: seq<Query> := [];
    var i := 0;
    while i < |list|
      invariant 0 <= i <= |list|
      invariant RunInOrder(steps[..i]) == Attempt(Ok(built), issued)
    {
      var name := list[i];
      assert steps[i] == PostgresTableAttempt(db, name);
      PrefixSnoc(steps, i);
      RunInOrderSnoc(steps[..i], PostgresTableAttempt(db, name));
      var t, tableIssued := CreatePostgresTable(db, name);
      issued := issued + tableIssued;
      if t.Err? {
        RunInOrderPrefixFailed(steps, i + 1);
        return Outcome(Some(t.error), None, [InstallProcedure] + issued), "";
      }
      built := built + [t.value];
      i := i + 1;
    }
    assert steps[..i] == steps;
    var doc := Completed(data, built, now);
    return Outcome(None, Some(doc), [InstallProcedure] + issued), Render(doc);
  }

  /** A failed installation ends DumpPostgres before any table is asked for. */
  lemma DumpPostgresInstallFails(db: Database, data: Document, list: seq<string>, now: string)
    requires db.install.Some?
    ensures DumpPostgresOutcome(db, data, list, now).err == db.install
    ensures DumpPostgresOutcome(db, data, list, now).document == None
    ensures forall q :: q in DumpPostgresOutcome(db, data, list, now).issued ==> q == InstallProcedure
  {
  }

  /** When the table at index k is the first to fail, DumpPostgres returns its
      error, writes nothing, and has queried only the tables up to k. */
  lemma DumpPostgresStops(db: Database, data: Document, list: seq<string>, now: string, k: int)
    requires db.install.None?
    requires 0 <= k < |list| && PostgresTableAttempt(db, list[k]).result.Err?
    requires forall j :: 0 <= j < k ==> PostgresTableAttempt(db, list[j]).result.Ok?
    ensures DumpPostgresOutcome(db, data, list, now) ==
      Outcome(Some(PostgresTableAttempt(db, list[k]).result.error), None,
              [InstallProcedure] + IssuedBy(PostgresAttempts(db, list[..k + 1])))
  {
    var steps := PostgresAttempts(db, list);
    assert steps[..k + 1] == PostgresAttempts(db, list[..k + 1]);
    assert FirstFailure(steps, k);
    FinishStops(steps, data, now, k);
  }

  /** When the procedure installs and every table succeeds, DumpPostgres
      returns nil and the document holds the given tables followed by one
      record per listed name, in list order. */
  lemma DumpPostgresSucceeds(db: Database, data: Document, list: seq<string>, now: string)
    requires db.install.None?
    requires forall i :: 0 <= i < |list| ==> PostgresTableAttempt(db, list[i]).result.Ok?
    ensures var out := DumpPostgresOutcome(db, data, list, now);
      out.err == None && out.document.Some? &&
      out.issued == [InstallProcedure] + IssuedBy(PostgresAttempts(db, list)) &&
      var doc := out.document.value;
      doc.completeTime == now &&
      doc.dumpVersion == data.dumpVersion && doc.serverVersion == data.serverVersion &&
      |doc.tables| == |data.tables| + |list| && doc.tables[..|data.tables|] == data.tables &&
      forall i :: 0 <= i < |list| ==>
        doc.tables[|data.tables| + i] == PostgresTableAttempt(db, list[i]).result.value
  {
    var steps := PostgresAttempts(db, list);
    assert forall i :: 0 <= i < |list| ==> steps[i].result == PostgresTableAttempt(db, list[i]).result;
    FinishAllOk(steps, data, now);
  }

  /** DumpPostgres fails exactly when the installation or one of the listed
      tables fails. */
  lemma DumpPostgresFailsIff(db: Database, data: Document, list: seq<string>, now: string)
    ensures DumpPostgresOutcome(db, data, list, now).err.Some? <==>
      db.install.Some? || exists i :: 0 <= i < |list| && PostgresTableAttempt(db, list[i]).result.Err?
  {
    if db.install.None? {
      var steps := PostgresAttempts(db, list);
      FinishFailsIff(steps, data, now);
      if exists i :: 0 <= i < |list| && PostgresTableAttempt(db, list[i]).result.Err? {
        var i :| 0 <= i < |list| && PostgresTableAttempt(db, list[i]).result.Err?;
        assert steps[i].result.Err?;
      }
    }
  }

  /** pgtpl up to {{range .Tables}}; every line after the first is indented
      with a tab. */
  function Header(doc: Document): string
  {
    "-- Go SQL Dump " + doc.dumpVersion + "\n" +
    "\t--\n" +
    "\t-- ------------------------------------------------------\n" +
    "\t-- Server version\t" + doc.serverVersion + "\n" +
    "\n" +
    "\t"
  }

  function BlockHead(t: Table): string
  {
    "\n\t--\n\t-- Table structure for table " + t.name + "\n\t--\n\t"
  }

  function DropLine(t: Table): string
  {
    "DROP TABLE IF EXISTS " + t.name + ";\n\t"
  }

  function SequenceLines(t: Table): string
  {
    t.sequences + "\n\t"
  }

  function DdlLine(t: Table): string
  {
    t.sql + ";\n\t"
  }

  function DataHead(t: Table): string
  {
    "--\n\t-- Dumping data for table " + t.name + "\n\t--\n\t"
  }

  /** The {{ if .Values }} part of a block and the line break after it. */
  function DataTail(t: Table): string
  {
    (if t.values != "" then "\n\tINSERT INTO " + t.name + " VALUES " + t.values + ";\n\t" else "") + "\n\t"
  }

  /** The body of {{range .Tables}} for one table. */
  function Block(t: Table): string
  {
    BlockHead(t) + DropLine(t) + SequenceLines(t) + DdlLine(t) + DataHead(t) + DataTail(t)
  }

  function Footer(doc: Document): string
  {
    "\n\t-- Dump completed on " + doc.completeTime + "\n"
  }

  /** pgtpl executed over a document. */
  function Render(doc: Document): string
  {
    Header(doc) + Each(doc.tables, Block) + Footer(doc)
  }

  /** The text pgtpl renders holds one block per table in document order,
      each starting where the header and the blocks before it end. */
  lemma RenderLayout(doc: Document, i: int)
    requires 0 <= i < |doc.tables|
    ensures OccursAt(Render(doc), Block(doc.tables[i]), |Header(doc)| + |Each(doc.tables[..i], Block)|)
  {
    FramedLayout(Header(doc), doc.tables, Block, Footer(doc), i);
  }

  /** Each block holds, in this order: the DROP statement, the sequence
      statements, the DDL followed by `;`, and the data part, which ends it. */
  lemma BlockLayout(t: Table)
    ensures OccursAt(Block(t), DropLine(t), |BlockHead(t)|)
    ensures OccursAt(Block(t), SequenceLines(t), |BlockHead(t)| + |DropLine(t)|)
    ensures OccursAt(Block(t), DdlLine(t), |BlockHead(t)| + |DropLine(t)| + |SequenceLines(t)|)
    ensures OccursAt(Block(t), DataTail(t),
                     |BlockHead(t)| + |DropLine(t)| + |SequenceLines(t)| + |DdlLine(t)| + |DataHead(t)|)
  {
    PartsLayout(BlockHead(t), DropLine(t), SequenceLines(t), DdlLine(t), DataHead(t), DataTail(t));
  }

  /** The data part holds an INSERT statement exactly when the table has
      values, and is a bare line break otherwise. */
  lemma DataTailIff(t: Table)
    ensures DataTail(t) == "\n\t" <==> t.values == ""
    ensures t.values != "" ==>
      OccursAt(DataTail(t), "\n\tINSERT INTO " + t.name + " VALUES " + t.values + ";\n\t", 0)
  {
    if t.values != "" {
      var insert := "\n\tINSERT INTO " + t.name + " VALUES " + t.values + ";\n\t";
      assert DataTail(t)[..|insert|] == insert;
      assert |DataTail(t)| > 2;
    }
  }
}
