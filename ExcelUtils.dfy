/** ExcelUtils.getTestData: a sheet becomes a list of ordered maps from the
    header row's titles to the formatted cells below them. Opening and parsing
    the workbook is I/O: the workbook arrives already parsed, or as `None`
    when reading it raised an IOException. */
module Excel {
  import opened Common
  import opened JavaStrings
  import Config

  const KeyExcelPath := "excel.path"
  const DefaultExcelPath := "src/main/resources/testdata/testdata.xlsx"

  /** A physical cell: text, an empty but present cell, a formula (its text
      without the leading `=`, and the cached result when that is text), or
      any other kind (numeric, boolean, date, error) shown by DataFormatter
      as `formatted`. */
  datatype Cell =
    | TextCell(text: string)
    | BlankCell
    | FormulaCell(formula: string, cachedText: Option<string>)
    | OtherCell(formatted: string)

  /** A physical row, by column index; `None` is a cell the file does not hold. */
  type Row = seq<Option<Cell>>

  /** The physical rows of a sheet, in order. */
  type Sheet = seq<Row>

  /** The sheets of a workbook, by name. */
  type Workbook = map<string, Sheet>

  /** A LinkedHashMap<String, String>: entries in insertion order. */
  type Record = seq<(string, string)>

  /** `EXCEL_FILE_PATH`: `excel.path` when configured, else the default. */
  function ExcelFilePath(c: Config.Layers): (r: Result<string>)
    ensures !Config.ContainsKey(c, KeyExcelPath) ==> r == Ok(DefaultExcelPath)
    ensures Config.ContainsKey(c, KeyExcelPath) ==> r == Config.Get(c, KeyExcelPath)
  {
    if Config.ContainsKey(c, KeyExcelPath) then Config.Get(c, KeyExcelPath) else Ok(DefaultExcelPath)
  }

  // ------------------------------------------------------------ records

  function Keys(m: Record): (ks: seq<string>)
    ensures |ks| == |m|
  {
    if m == [] then [] else [m[0].0] + Keys(m[1..])
  }

  /** The keys of a record are its entries' keys, in order. */
  lemma {:induction false} KeysAt(m: Record, i: nat)
    requires i < |m|
    ensures Keys(m)[i] == m[i].0
  {
    if i > 0 {
      KeysAt(m[1..], i - 1);
    }
  }

  /** `Map.get`: the value of the first entry with key `k`. */
  function Lookup(m: Record, k: string): Option<string>
  {
    if m == [] then None else if m[0].0 == k then Some(m[0].1) else Lookup(m[1..], k)
  }

  predicate Distinct(ks: seq<string>) {
    forall i, j :: 0 <= i < j < |ks| ==> ks[i] != ks[j]
  }

  /** No key occurs twice, as in any java.util.Map. */
  predicate DistinctKeys(m: Record) {
    Distinct(Keys(m))
  }

  /** `LinkedHashMap.put`. */
  function Put(m: Record, k: string, v: string): (r: Record)
    ensures (k, v) in r
    ensures |r| == |m| || |r| == |m| + 1
  {
    if m == [] then [(k, v)]
    else if m[0].0 == k then [(k, v)] + m[1..]
    else [m[0]] + Put(m[1..], k, v)
  }

  /** A new key goes last; an existing key keeps its place and takes the new
      value; every other key keeps its value. */
  lemma PutSpec(m: Record, k: string, v: string)
    ensures Keys(Put(m, k, v)) == if k in Keys(m) then Keys(m) else Keys(m) + [k]
    ensures Lookup(Put(m, k, v), k) == Some(v)
    ensures forall other :: other != k ==> Lookup(Put(m, k, v), other) == Lookup(m, other)
  {
    PutKeysShape(m, k, v);
    PutLookup(m, k, v);
  }

  lemma {:induction false} PutKeysShape(m: Record, k: string, v: string)
    ensures Keys(Put(m, k, v)) == if k in Keys(m) then Keys(m) else Keys(m) + [k]
  {
    if m != [] {
      assert Keys(m) == [m[0].0] + Keys(m[1..]);
      if m[0].0 != k {
        PutKeysShape(m[1..], k, v);
        var tail := Put(m[1..], k, v);
        assert Put(m, k, v) == [m[0]] + tail;
        assert Keys([m[0]] + tail) == [m[0].0] + Keys(tail);
        assert (k in Keys(m)) == (k in Keys(m[1..]));
        if k !in Keys(m) {
          assert [m[0].0] + (Keys(m[1..]) + [k]) == Keys(m) + [k];
        }
      } else {
        assert Keys(Put(m, k, v)) == [k] + Keys(m[1..]);
      }
    }
  }

  lemma {:induction false} PutLookup(m: Record, k: string, v: string)
    ensures Lookup(Put(m, k, v), k) == Some(v)
    ensures forall other :: other != k ==> Lookup(Put(m, k, v), other) == Lookup(m, other)
  {
    if m != [] {
      if m[0].0 != k {
        PutLookup(m[1..], k, v);
        var tail := Put(m[1..], k, v);
        assert Put(m, k, v) == [m[0]] + tail;
        assert ([m[0]] + tail)[1..] == tail;
      } else {
        assert ([(k, v)] + m[1..])[1..] == m[1..];
      }
    }
  }

  lemma PutKeepsDistinct(m: Record, k: string, v: string)
    requires DistinctKeys(m)
    ensures DistinctKeys(Put(m, k, v))
  {
    PutSpec(m, k, v);
    var ks := Keys(m);
    if k !in ks {
      var ks2 := ks + [k];
      forall i, j | 0 <= i < j < |ks2|
        ensures ks2[i] != ks2[j]
      {
        if j == |ks| {
          assert ks2[i] == ks[i];
        }
      }
    }
  }

  // ------------------------------------------------------------ cells

  /** `cell.getStringCellValue()` on a header cell: text and blank cells have
      one, and so has a formula whose cached result is text; any other cell
      raises IllegalStateException. */
  function HeaderText(c: Cell): (r: Result<string>)
    ensures r.Ok? <==> c.TextCell? || c.BlankCell? || (c.FormulaCell? && c.cachedText.Some?)
    ensures r.Err? ==> r.error == IllegalState
    ensures c.FormulaCell? && r.Ok? ==> r.value == c.cachedText.value
  {
    match c
    case TextCell(t) => Ok(t)
    case BlankCell => Ok("")
    case FormulaCell(_, cached) => if cached.Some? then Ok(cached.value) else Err(IllegalState)
    case OtherCell(_) => Err(IllegalState)
  }

  /** `row.getCell(i, CREATE_NULL_AS_BLANK)` then `formatCellValue`: a missing
      cell, inside or past the row, reads as "". DataFormatter is given no
      formula evaluator, so a formula cell reads as its formula text. */
  function FormattedAt(row: Row, i: nat): (s: string)
    ensures (i >= |row| || row[i].None?) ==> s == ""
    ensures i < |row| && row[i].Some? && row[i].value.FormulaCell? ==> s == row[i].value.formula
  {
    if i >= |row| then ""
    else match row[i]
      case None => ""
      case Some(TextCell(t)) => t
      case Some(BlankCell) => ""
      case Some(FormulaCell(formula, _)) => formula
      case Some(OtherCell(f)) => f
  }

  /** The headers of the first `n` physical header cells: the row's iterator
      visits present cells only, so a gap in the header row closes up. */
  function HeadersUpTo(headerRow: Row, n: nat): (r: Result<seq<string>>)
    requires n <= |headerRow|
    ensures r.Err? ==> r.error == IllegalState
    ensures r.Ok? ==> |r.value| <= n
    decreases n
  {
    if n == 0 then Ok([])
    else match HeadersUpTo(headerRow, n - 1)
      case Err(e) => Err(e)
      case Ok(hs) =>
        match headerRow[n - 1]
        case None => Ok(hs)
        case Some(c) =>
          match HeaderText(c)
          case Err(e) => Err(e)
          case Ok(t) => Ok(hs + [Trim(t)])
  }

  function Headers(headerRow: Row): Result<seq<string>> {
    HeadersUpTo(headerRow, |headerRow|)
  }

  /** The first header cell without a string value ends the header loop. */
  lemma {:induction false} HeadersErrorPersists(headerRow: Row, n: nat, m: nat)
    requires n <= m <= |headerRow| && HeadersUpTo(headerRow, n).Err?
    ensures HeadersUpTo(headerRow, m) == HeadersUpTo(headerRow, n)
    decreases m
  {
    if m > n {
      HeadersErrorPersists(headerRow, n, m - 1);
    }
  }

  /** The map built for `row` after the first `n` header columns. */
  function RecordUpTo(headers: seq<string>, row: Row, n: nat): (r: Record)
    requires n <= |headers|
    ensures n > 0 ==> (headers[n - 1], FormattedAt(row, n - 1)) in r
    ensures |r| <= n
    decreases n
  {
    if n == 0 then []
    else Put(RecordUpTo(headers, row, n - 1), headers[n - 1], FormattedAt(row, n - 1))
  }

  /** The LinkedHashMap one data row becomes. */
  function RowRecord(headers: seq<string>, row: Row): (r: Record)
    ensures |r| <= |headers|
    ensures headers != [] ==> (headers[|headers| - 1], FormattedAt(row, |headers| - 1)) in r
  {
    RecordUpTo(headers, row, |headers|)
  }

  /** One map per data row, in row order. */
  function RowRecords(headers: seq<string>, rows: seq<Row>): (rs: seq<Record>)
    ensures |rs| == |rows|
    ensures forall j :: 0 <= j < |rows| ==> rs[j] == RowRecord(headers, rows[j])
  {
    if rows == [] then [] else [RowRecord(headers, rows[0])] + RowRecords(headers, rows[1..])
  }

  /** The specification of `getTestData(sheetName)` over the workbook read
      from `path`. */
  function TestData(path: string, book: Option<Workbook>, sheetName: string): (r: Result<seq<Record>>)
    ensures book.None? ==> r == Err(Framework("Error reading Excel file: " + path, Some(IOFailure)))
    ensures book.Some? && sheetName !in book.value ==>
      r == Err(Framework("Sheet '" + sheetName + "' not found in " + path, None))
    ensures book.Some? && sheetName in book.value && book.value[sheetName] == [] ==> r == Ok([])
    ensures book.Some? && sheetName in book.value && book.value[sheetName] != [] ==>
      var sheet := book.value[sheetName];
      match Headers(sheet[0])
      case Err(e) => r == Err(e)
      case Ok(h) => (r.Ok? && |r.value| == |sheet| - 1 &&
        forall j :: 0 <= j < |r.value| ==> r.value[j] == RowRecord(h, sheet[j + 1]))
  {
    match book
    case None => Err(Framework("Error reading Excel file: " + path, Some(IOFailure)))
    case Some(wb) =>
      if sheetName !in wb then Err(Framework("Sheet '" + sheetName + "' not found in " + path, None))
      else
        var sheet := wb[sheetName];
        if sheet == [] then Ok([])
        else match Headers(sheet[0])
          case Err(e) => Err(e)
          case Ok(h) => Ok(RowRecords(h, sheet[1..]))
  }

  /** `getTestData`: the header loop, then the row loop with its column loop. */
  method GetTestData(path: string, book: Option<Workbook>, sheetName: string) returns (r: Result<seq<Record>>)
    ensures r == TestData(path, book, sheetName)
  {
    if book.None? {
      return Err(Framework("Error reading Excel file: " + path, Some(IOFailure)));
    }
    var wb := book.value;
    if sheetName !in wb {
      return Err(Framework("Sheet '" + sheetName + "' not found in " + path, None));
    }
    var sheet := wb[sheetName];
    if sheet == [] {
      return Ok([]);
    }
    var headerRow: Row := sheet[0];
    var headers: seq<string> := [];
    var c := 0;
    while c < |headerRow|
      invariant 0 <= c <= |headerRow|
      invariant HeadersUpTo(headerRow, c) == Ok(headers)
    {
      if headerRow[c].Some? {
        var text := HeaderText(headerRow[c].value);
        if text.Err? {
          HeadersErrorPersists(headerRow, c + 1, |headerRow|);
          return Err(text.error);
        }
        headers := headers + [Trim(text.value)];
      }
      c := c + 1;
    }
    var data: seq<Record> := [];
    var j := 1;
    while j < |sheet|
      invariant 1 <= j <= |sheet|
      invariant |data| == j - 1
      invariant forall k :: 0 <= k < j - 1 ==> data[k] == RowRecord(headers, sheet[k + 1])
    {
      var row := sheet[j];
      var rowMap: Record := [];
      for i := 0 to |headers|
        invariant rowMap == RecordUpTo(headers, row, i)
      {
        rowMap := Put(rowMap, headers[i], FormattedAt(row, i));
      }
      data := data + [rowMap];
      j := j + 1;
    }
    assert data == RowRecords(headers, sheet[1..]);
    r := Ok(data);
  }

  // ------------------------------------------------------------ properties

  /** After `n` columns no key occurs twice. */
  lemma {:induction false} RecordKeysDistinct(headers: seq<string>, row: Row, n: nat)
    requires n <= |headers|
    ensures DistinctKeys(RecordUpTo(headers, row, n))
    decreases n
  {
    if n > 0 {
      RecordKeysDistinct(headers, row, n - 1);
      PutKeepsDistinct(RecordUpTo(headers, row, n - 1), headers[n - 1], FormattedAt(row, n - 1));
    }
  }

  /** After `n` columns the keys are exactly the first `n` headers. */
  lemma RecordKeysUpTo(headers: seq<string>, row: Row, n: nat)
    requires n <= |headers|
    ensures forall x :: x in Keys(RecordUpTo(headers, row, n)) <==> x in headers[..n]
  {
    forall x
      ensures x in Keys(RecordUpTo(headers, row, n)) <==> x in headers[..n]
    {
      RecordKeyUpTo(headers, row, n, x);
    }
  }

  lemma {:induction false} RecordKeyUpTo(headers: seq<string>, row: Row, n: nat, x: string)
    requires n <= |headers|
    ensures x in Keys(RecordUpTo(headers, row, n)) <==> x in headers[..n]
    decreases n
  {
    if n > 0 {
      RecordKeyUpTo(headers, row, n - 1, x);
      assert headers[..n] == headers[..n - 1] + [headers[n - 1]];
      PutKey(RecordUpTo(headers, row, n - 1), headers[n - 1], FormattedAt(row, n - 1), x, headers[..n - 1]);
    }
  }

  /** `put` adds `k` to the keys and nothing else. */
  lemma PutKey(m: Record, k: string, v: string, x: string, names: seq<string>)
    requires x in Keys(m) <==> x in names
    ensures x in Keys(Put(m, k, v)) <==> x in names + [k]
  {
    PutKeysShape(m, k, v);
    if k !in Keys(m) {
      assert Keys(Put(m, k, v)) == Keys(m) + [k];
    }
  }

  /** Every header is a key of the row's map and nothing else is; no key
      appears twice. */
  lemma RecordKeysAreHeaders(headers: seq<string>, row: Row)
    ensures forall k :: k in Keys(RowRecord(headers, row)) <==> k in headers
    ensures DistinctKeys(RowRecord(headers, row))
  {
    RecordKeysUpTo(headers, row, |headers|);
    RecordKeysDistinct(headers, row, |headers|);
    assert headers[..|headers|] == headers;
  }

  /** Headers are trimmed titles. */
  lemma {:induction false} HeadersAreTrimmed(headerRow: Row, n: nat)
    requires n <= |headerRow| && HeadersUpTo(headerRow, n).Ok?
    ensures forall i :: 0 <= i < |HeadersUpTo(headerRow, n).value| ==>
      Trim(HeadersUpTo(headerRow, n).value[i]) == HeadersUpTo(headerRow, n).value[i]
    decreases n
  {
    if n > 0 {
      HeadersAreTrimmed(headerRow, n - 1);
      match headerRow[n - 1]
      case None =>
      case Some(c) =>
        TrimIdempotent(HeaderText(c).value);
    }
  }

  /** The cells the header row's iterator visits: the present ones, in order. */
  function Present(r: Row): (cs: seq<Cell>)
    ensures |cs| <= |r|
  {
    if r == [] then []
    else Present(r[..|r| - 1]) + (if r[|r| - 1].Some? then [r[|r| - 1].value] else [])
  }

  /** The header read succeeds exactly when every present cell among the
      first `n` has a string value. */
  lemma {:induction false} HeadersOkIff(headerRow: Row, n: nat)
    requires n <= |headerRow|
    ensures HeadersUpTo(headerRow, n).Ok? <==>
      forall i :: 0 <= i < n && headerRow[i].Some? ==> HeaderText(headerRow[i].value).Ok?
    decreases n
  {
    if n > 0 {
      HeadersOkIff(headerRow, n - 1);
      if HeadersUpTo(headerRow, n - 1).Err? {
        var i :| 0 <= i < n - 1 && headerRow[i].Some? && !HeaderText(headerRow[i].value).Ok?;
      }
    }
  }

  /** On success the headers are the present cells' string values, trimmed,
      one per present cell, in order. */
  lemma {:induction false} HeadersArePresentTexts(headerRow: Row, n: nat)
    requires n <= |headerRow| && HeadersUpTo(headerRow, n).Ok?
    ensures var hs := HeadersUpTo(headerRow, n).value;
      var cells := Present(headerRow[..n]);
      && |hs| == |cells|
      && forall j :: 0 <= j < |hs| ==> HeaderText(cells[j]).Ok? && hs[j] == Trim(HeaderText(cells[j]).value)
    decreases n
  {
    if n > 0 {
      HeadersArePresentTexts(headerRow, n - 1);
      var prefix := headerRow[..n];
      assert prefix[..|prefix| - 1] == headerRow[..n - 1];
      assert prefix[|prefix| - 1] == headerRow[n - 1];
      var hs := HeadersUpTo(headerRow, n).value;
      var prev := HeadersUpTo(headerRow, n - 1).value;
      var cells := Present(prefix);
      var prevCells := Present(headerRow[..n - 1]);
      if headerRow[n - 1].Some? {
        assert cells == prevCells + [headerRow[n - 1].value];
        assert hs == prev + [Trim(HeaderText(headerRow[n - 1].value).value)];
        forall j | 0 <= j < |hs|
          ensures HeaderText(cells[j]).Ok? && hs[j] == Trim(HeaderText(cells[j]).value)
        {
          if j < |prev| {
            assert hs[j] == prev[j] && cells[j] == prevCells[j];
          }
        }
      } else {
        assert cells == prevCells + [];
        assert hs == prev;
      }
    }
  }

  /** The value under a header is the formatted cell of the LAST column with
      that title: a duplicate header overwrites the earlier column. */
  lemma {:induction false} RecordValueIsLastColumn(headers: seq<string>, row: Row, n: nat, i: nat)
    requires i < n <= |headers|
    requires forall k :: i < k < n ==> headers[k] != headers[i]
    ensures Lookup(RecordUpTo(headers, row, n), headers[i]) == Some(FormattedAt(row, i))
    decreases n
  {
    var prev := RecordUpTo(headers, row, n - 1);
    assert RecordUpTo(headers, row, n) == Put(prev, headers[n - 1], FormattedAt(row, n - 1));
    PutLookup(prev, headers[n - 1], FormattedAt(row, n - 1));
    if n - 1 != i {
      RecordValueIsLastColumn(headers, row, n - 1, i);
      assert headers[n - 1] != headers[i];
    }
  }

  /** Cells past the last header never reach the output. */
  lemma {:induction false} ExtraCellsIgnored(headers: seq<string>, row: Row, extra: Row, n: nat)
    requires n <= |headers| <= |row|
    ensures RecordUpTo(headers, row + extra, n) == RecordUpTo(headers, row, n)
    decreases n
  {
    if n > 0 {
      ExtraCellsIgnored(headers, row, extra, n - 1);
      assert (row + extra)[n - 1] == row[n - 1];
      assert FormattedAt(row + extra, n - 1) == FormattedAt(row, n - 1);
    }
  }

  /** A short row still has every header, the missing columns reading "". */
  lemma MissingCellsAreBlank(headers: seq<string>, row: Row, i: nat)
    requires |row| <= i < |headers|
    requires forall k :: i < k < |headers| ==> headers[k] != headers[i]
    ensures Lookup(RowRecord(headers, row), headers[i]) == Some("")
  {
    RecordValueIsLastColumn(headers, row, |headers|, i);
  }

  /** A gap in the header row shifts titles left: the title of physical
      column 2 labels the values of column 1. */
  lemma HeaderGapShiftsColumns()
    ensures Headers([Some(TextCell("id")), None, Some(TextCell(" name "))]) == Ok(["id", "name"])
    ensures RowRecord(["id", "name"], [Some(TextCell("7")), Some(TextCell("x")), Some(TextCell("Ann"))]) ==
      [("id", "7"), ("name", "x")]
  {
    var hr := [Some(TextCell("id")), None, Some(TextCell(" name "))];
    Config.TrimPadded("", "id");
    assert "" + "id" + "" == "id";
    assert Trim("id") == "id";
    Config.TrimPadded(" ", "name");
    assert " " + "name" + " " == " name ";
    assert Trim(" name ") == "name";
    assert HeadersUpTo(hr, 0) == Ok([]);
    assert HeaderText(TextCell("id")) == Ok("id");
    assert HeadersUpTo(hr, 1) == Ok([] + ["id"]);
    assert [] + ["id"] == ["id"];
    assert HeadersUpTo(hr, 1) == Ok(["id"]);
    assert hr[1] == None;
    assert HeadersUpTo(hr, 2) == Ok(["id"]);
    assert HeadersUpTo(hr, 3) == Ok(["id"] + ["name"]);
    assert ["id"] + ["name"] == ["id", "name"];
    assert Headers(hr) == HeadersUpTo(hr, 3);
  }
}
