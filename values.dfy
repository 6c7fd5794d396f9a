/** The row serializer (createTableValues): the rows of a table as the text of
    a SQL VALUES list. Its Go source is not part of this model; what it does is
    taken from what dump_test.go asserts about it. */
module Values {
  import opened Sql
  import opened Text

  /** One cell: NULL is the bare token `null`; any other value, the empty
      string included, is wrapped in single quotes, with nothing escaped. */
  function CellLiteral(c: NullString): string
  {
    match c
    case None => "null"
    case Some(v) => "'" + v + "'"
  }

  function CellLiterals(row: Row): (lits: seq<string>)
    ensures |lits| == |row|
  {
    seq(|row|, i requires 0 <= i < |row| => CellLiteral(row[i]))
  }

  /** One row: its cells in column order, joined by commas, in parentheses. */
  function RowLiteral(row: Row): string
  {
    "(" + Join(CellLiterals(row), ",") + ")"
  }

  function RowLiterals(rows: seq<Row>): (lits: seq<string>)
    ensures |lits| == |rows|
  {
    seq(|rows|, i requires 0 <= i < |rows| => RowLiteral(rows[i]))
  }

  /** All rows in row order, joined by commas with no spaces. */
  function ValuesLiteral(rows: seq<Row>): string
  {
    Join(RowLiterals(rows), ",")
  }

  /** createTableValues on one table: a failed read is returned unchanged;
      otherwise the VALUES text of the rows read, which is empty exactly when
      the table is. */
  function TableValues(db: Database, name: string): (r: Result<string>)
    ensures db.tableRows(name).Err? ==> r == Err(db.tableRows(name).error)
    ensures db.tableRows(name).Ok? ==> r == Ok(ValuesLiteral(db.tableRows(name).value))
    ensures db.tableRows(name).Ok? ==> r.Ok? && (r.value == "" <==> db.tableRows(name).value == [])
  {
    match db.tableRows(name)
    case Err(e) => Err(e)
    case Ok(rows) =>
      ValuesEmptyIff(rows);
      Ok(ValuesLiteral(rows))
  }

  /** Reads one cell literal back. */
  function ParseCell(lit: string): Option<NullString>
  {
    if lit == "null" then Some(None)
    else if |lit| >= 2 && lit[0] == '\'' && lit[|lit| - 1] == '\'' then Some(Some(lit[1..|lit| - 1]))
    else None
  }

  /** Every cell can be read back from its literal, so NULL, the string "null"
      and the empty string are all told apart. */
  lemma CellRoundTrip(c: NullString)
    ensures ParseCell(CellLiteral(c)) == Some(c)
  {
    match c
    case None =>
    case Some(v) =>
      var lit := CellLiteral(c);
      assert lit[1..|lit| - 1] == v;
  }

  lemma {:induction false} JoinEmptyIff(parts: seq<string>, sep: string)
    requires forall i :: 0 <= i < |parts| ==> parts[i] != ""
    ensures Join(parts, sep) == "" <==> parts == []
    decreases |parts|
  {
    if |parts| > 1 {
      var n := |parts|;
      assert |Join(parts, sep)| >= |parts[n - 1]| > 0;
    }
  }

  /** The VALUES text is empty exactly for a table with no rows. */
  lemma ValuesEmptyIff(rows: seq<Row>)
    ensures ValuesLiteral(rows) == "" <==> rows == []
  {
    var lits := RowLiterals(rows);
    forall i | 0 <= i < |lits| ensures lits[i] != "" {
      assert lits[i][0] == '(';
    }
    JoinEmptyIff(lits, ",");
  }

  /** Rows are appended in order: one more row adds a comma and its literal. */
  lemma ValuesAppend(rows: seq<Row>, row: Row)
    requires rows != []
    ensures ValuesLiteral(rows + [row]) == ValuesLiteral(rows) + "," + RowLiteral(row)
  {
    var lits := RowLiterals(rows + [row]);
    assert lits[..|lits| - 1] == RowLiterals(rows);
  }

  /** Embedded quotes are not escaped: a single cell can serialize exactly like
      two cells. */
  lemma NoQuoteEscaping()
    ensures RowLiteral([Some("a','b")]) == RowLiteral([Some("a"), Some("b")])
  {
    var one := CellLiterals([Some("a','b")]);
    var two := CellLiterals([Some("a"), Some("b")]);
    assert one[0] == "'" + "a','b" + "'" == "'a','b'";
    assert one == ["'a','b'"];
    assert two[0] == "'" + "a" + "'" == "'a'";
    assert two[1] == "'" + "b" + "'" == "'b'";
    assert two == ["'a'", "'b'"];
    assert Join(two, ",") == Join(two[..1], ",") + "," + "'b'";
    assert two[..1] == ["'a'"];
  }

  /** Cells are appended in column order: one more cell adds a comma and its
      literal before the closing parenthesis. */
  lemma RowSnoc(row: Row, c: NullString)
    requires row != []
    ensures RowLiteral(row + [c]) == "(" + Join(CellLiterals(row), ",") + "," + CellLiteral(c) + ")"
  {
    var lits := CellLiterals(row + [c]);
    assert lits[..|lits| - 1] == CellLiterals(row);
  }

  /** A row of three cells, the width of the rows in dump_test.go. */
  lemma ThreeCells(a: NullString, b: NullString, c: NullString)
    ensures RowLiteral([a, b, c]) == "(" + CellLiteral(a) + "," + CellLiteral(b) + "," + CellLiteral(c) + ")"
  {
    var x, y, z := CellLiteral(a), CellLiteral(b), CellLiteral(c);
    assert CellLiterals([a, b, c]) == [x, y, z];
    JoinThree(x, y, z, ",");
  }

  /** The cells asserted in dump_test.go:207-230: a NULL cell is the bare
      token `null` and an empty string is `''`, among quoted values. */
  lemma NullAndEmptyCells(id: string, name: string)
    ensures RowLiteral([Some(id), None, Some(name)]) == "('" + id + "',null,'" + name + "')"
    ensures RowLiteral([Some(id), Some(""), Some(name)]) == "('" + id + "','','" + name + "')"
  {
    ThreeCells(Some(id), None, Some(name));
    ThreeCells(Some(id), Some(""), Some(name));
    assert CellLiteral(Some("")) == "''";
  }
}
