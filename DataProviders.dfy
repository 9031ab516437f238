/** DataProviders: the TestNG data providers. Excel and JSON records are
    handed to a test one per invocation; database rows and CSV lines become
    argument arrays. JDBC, the JSON loader and file reading are outside the
    model: their outcomes are inputs. */
module DataProviders {
  import opened Common
  import opened JavaStrings
  import Config
  import Excel

  const QueryKeyPrefix := "db.query."
  const KeyCsvPath := "csv.path"
  const DefaultCsvPath := "src/main/resources/testdata/data.csv"

  /** `rows.stream().map(row -> new Object[]{ row })`: one single-argument
      invocation per record, in order. */
  function Wrap<R>(records: seq<R>): (r: seq<seq<R>>)
    ensures |r| == |records|
    ensures forall i :: 0 <= i < |records| ==> r[i] == [records[i]]
  {
    if records == [] then [] else [[records[0]]] + Wrap(records[1..])
  }

  /** `excelDataProvider`: the sheet named after the test method; any failure
      of the loader is wrapped once more. */
  function ExcelDataProvider(path: string, book: Option<Excel.Workbook>, methodName: string): (r: Result<seq<seq<Excel.Record>>>)
    ensures Excel.TestData(path, book, methodName).Ok? ==>
      r == Ok(Wrap(Excel.TestData(path, book, methodName).value))
    ensures Excel.TestData(path, book, methodName).Err? ==>
      r == Err(Framework("Excel data load failure for sheet: " + methodName, Some(Excel.TestData(path, book, methodName).error)))
  {
    match Excel.TestData(path, book, methodName)
    case Err(e) => Err(Framework("Excel data load failure for sheet: " + methodName, Some(e)))
    case Ok(rows) => Ok(Wrap(rows))
  }

  /** `jsonDataProvider`: `load` is JsonUtils.getTestData, asked for the array
      named after the test method. */
  function JsonDataProvider<R>(load: string -> Result<seq<R>>, methodName: string): (r: Result<seq<seq<R>>>)
    ensures load(methodName).Ok? ==> r == Ok(Wrap(load(methodName).value))
    ensures load(methodName).Err? ==>
      r == Err(Framework("JSON data load failure for key: " + methodName, Some(load(methodName).error)))
  {
    match load(methodName)
    case Err(e) => Err(Framework("JSON data load failure for key: " + methodName, Some(e)))
    case Ok(records) => Ok(Wrap(records))
  }

  /** Every invocation gets exactly one argument, and the arguments in order
      are the records. */
  lemma {:induction false} WrapOnePerRecord<R>(records: seq<R>)
    ensures forall args :: args in Wrap(records) ==> |args| == 1
    ensures Flatten(Wrap(records)) == records
  {
    if records != [] {
      WrapOnePerRecord(records[1..]);
      assert Wrap(records)[1..] == Wrap(records[1..]);
    }
  }

  function Flatten<R>(xss: seq<seq<R>>): seq<R> {
    if xss == [] then [] else xss[0] + Flatten(xss[1..])
  }

  // ------------------------------------------------------------ database

  /** `DB_QUERY_PREFIX + method.getName()` */
  function QueryKey(methodName: string): (key: string)
    ensures |key| == |QueryKeyPrefix| + |methodName|
    ensures key[..|QueryKeyPrefix|] == QueryKeyPrefix && key[|QueryKeyPrefix|..] == methodName
  {
    QueryKeyPrefix + methodName
  }

  /** The SQL text: `get(queryKey)` when either layer holds the key, else
      `failMissingQuery`. A key that is present but blank fails in `get`. */
  function ResolveQuery(c: Config.Layers, methodName: string): (r: Result<string>)
    ensures !Config.ContainsKey(c, QueryKey(methodName)) ==>
      r == Err(Framework("No database query configured for test: " + methodName, None))
    ensures Config.ContainsKey(c, QueryKey(methodName)) ==> r == Config.Get(c, QueryKey(methodName))
  {
    if Config.ContainsKey(c, QueryKey(methodName)) then Config.Get(c, QueryKey(methodName))
    else Err(Framework("No database query configured for test: " + methodName, None))
  }

  /** What `executeQuery` returns: the metadata's column count and the rows. */
  datatype ResultSet<V> = ResultSet(columnCount: nat, rows: seq<seq<V>>)

  /** `rs.getObject(column)`: 1-based; a column the row does not have raises
      SQLException (`None`). */
  function GetObject<V>(row: seq<V>, column: int): (v: Option<V>)
    ensures v.Some? <==> 1 <= column <= |row|
    ensures v.Some? ==> v.value == row[column - 1]
  {
    if 1 <= column <= |row| then Some(row[column - 1]) else None
  }

  predicate RowsHaveColumns<V>(rs: ResultSet<V>) {
    forall j :: 0 <= j < |rs.rows| ==> rs.columnCount <= |rs.rows[j]|
  }

  /** `dbDataProvider`: `execute(sql)` is the query on a fresh connection
      (`None`: an SQLException). Columns 1..cols are copied to slots 0..cols-1. */
  method DbDataProvider<V>(c: Config.Layers, methodName: string, execute: string -> Option<ResultSet<V>>)
    returns (r: Result<seq<seq<V>>>)
    ensures ResolveQuery(c, methodName).Err? ==> r == Err(ResolveQuery(c, methodName).error)
    ensures ResolveQuery(c, methodName).Ok? ==>
      var rs := execute(ResolveQuery(c, methodName).value);
      (r.Ok? <==> rs.Some? && RowsHaveColumns(rs.value)) &&
      (r.Err? ==> r.error == Framework("Error querying database for test: " + methodName, Some(SqlFailure))) &&
      (r.Ok? ==> (|r.value| == |rs.value.rows| &&
        forall j :: 0 <= j < |r.value| ==> (|r.value[j]| == rs.value.columnCount &&
          forall i :: 1 <= i <= rs.value.columnCount ==> Some(r.value[j][i - 1]) == GetObject(rs.value.rows[j], i))))
  {
    var sql := ResolveQuery(c, methodName);
    if sql.Err? {
      return Err(sql.error);
    }
    var failure := Framework("Error querying database for test: " + methodName, Some(SqlFailure));
    var result := execute(sql.value);
    if result.None? {
      return Err(failure);
    }
    var rs := result.value;
    var cols := rs.columnCount;
    var rows: seq<seq<V>> := [];
    var j := 0;
    while j < |rs.rows|
      invariant 0 <= j <= |rs.rows| && |rows| == j
      invariant forall k :: 0 <= k < j ==> cols <= |rs.rows[k]|
      invariant forall k :: 0 <= k < j ==> (|rows[k]| == cols &&
        forall i :: 1 <= i <= cols ==> Some(rows[k][i - 1]) == GetObject(rs.rows[k], i))
    {
      var row: seq<V> := [];
      var i := 1;
      while i <= cols
        invariant 1 <= i <= cols + 1 && |row| == i - 1 && i - 1 <= |rs.rows[j]|
        invariant forall q :: 1 <= q < i ==> Some(row[q - 1]) == GetObject(rs.rows[j], q)
      {
        var v := GetObject(rs.rows[j], i);
        if v.None? {
          return Err(failure);
        }
        row := row + [v.value];
        i := i + 1;
      }
      rows := rows + [row];
      j := j + 1;
    }
    r := Ok(rows);
  }

  // ------------------------------------------------------------ CSV

  /** `CSV_PATH`: `csv.path` when configured, else the bundled file. */
  function CsvPath(c: Config.Layers): (r: Result<string>)
    ensures !Config.ContainsKey(c, KeyCsvPath) ==> r == Ok(DefaultCsvPath)
    ensures Config.ContainsKey(c, KeyCsvPath) ==> r == Config.Get(c, KeyCsvPath)
  {
    if Config.ContainsKey(c, KeyCsvPath) then Config.Get(c, KeyCsvPath) else Ok(DefaultCsvPath)
  }

  /** `csvDataProvider`: `read(path)` is the file's lines (`None`: an
      IOException). Each line becomes the argument array `line.split(",")`. */
  method CsvDataProvider(c: Config.Layers, read: string -> Option<seq<string>>) returns (r: Result<seq<seq<string>>>)
    ensures CsvPath(c).Err? ==> r == Err(CsvPath(c).error)
    ensures CsvPath(c).Ok? && read(CsvPath(c).value).None? ==> r == Err(Framework("CSV data load failure", Some(IOFailure)))
    ensures CsvPath(c).Ok? && read(CsvPath(c).value).Some? ==>
      var lines := read(CsvPath(c).value).value;
      r.Ok? && |r.value| == |lines| && forall i :: 0 <= i < |lines| ==> r.value[i] == Split(lines[i], ',')
  {
    var path := CsvPath(c);
    if path.Err? {
      return Err(path.error);
    }
    var file := read(path.value);
    if file.None? {
      return Err(Framework("CSV data load failure", Some(IOFailure)));
    }
    var lines := file.value;
    var rows: seq<seq<string>> := [];
    var i := 0;
    while i < |lines|
      invariant 0 <= i <= |lines| && |rows| == i
      invariant forall k :: 0 <= k < i ==> rows[k] == Split(lines[k], ',')
    {
      rows := rows + [Split(lines[i], ',')];
      i := i + 1;
    }
    r := Ok(rows);
  }

  /** Trailing empty CSV fields vanish and inner ones stay. */
  lemma CsvSplitExamples()
    ensures Split("a,,b,,", ',') == ["a", "", "b"]
  {
    assert ',' in "a,,b,,";
    var fs: seq<string> := ["a", "", "b", "", ""];
    FieldsOfCsvLine();
    assert Split("a,,b,,", ',') == DropTrailingEmpty(fs);
    assert fs[..4] == ["a", "", "b", ""] && fs[..4][..3] == ["a", "", "b"];
    assert DropTrailingEmpty(fs) == DropTrailingEmpty(fs[..4]) == DropTrailingEmpty(fs[..4][..3]);
  }

  lemma FieldsOfCsvLine()
    ensures Fields("a,,b,,", ',') == ["a", "", "b", "", ""]
  {
    CommaFields();
    assert "b,,"[1..] == ",,";
    assert Fields("b,,", ',') == [['b'] + ""] + ["", ""];
    assert ['b'] + "" == "b" && ['a'] + "" == "a";
    assert ",b,,"[1..] == "b,,";
    assert Fields(",b,,", ',') == ["", "b", "", ""];
    assert ",,b,,"[1..] == ",b,,";
    assert Fields(",,b,,", ',') == ["", "", "b", "", ""];
    assert "a,,b,,"[1..] == ",,b,,";
    assert Fields("a,,b,,", ',') == [['a'] + ""] + ["", "b", "", ""];
  }

  lemma CommaFields()
    ensures Fields(",,", ',') == ["", "", ""]
  {
    assert Fields("", ',') == [""];
    assert ",,"[1..] == ",";
    assert ","[1..] == "";
    assert Fields(",", ',') == ["", ""];
  }

  /** A line without a comma is one field even when it is empty, and a line
      of commas only gives no field at all. */
  lemma CsvDegenerateLines()
    ensures Split("", ',') == [""]
    ensures Split(",,", ',') == []
  {
    assert ',' in ",,";
    CommaFields();
    var empties: seq<string> := ["", "", ""];
    assert empties[..2] == ["", ""] && empties[..2][..1] == [""] && empties[..2][..1][..0] == [];
    assert DropTrailingEmpty(empties) == DropTrailingEmpty(empties[..2][..1][..0]);
  }
}
