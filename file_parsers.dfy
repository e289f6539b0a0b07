/**
 * Turning an uploaded statement file into named columns and rows
 * (lib/import/fileParsers.ts). The CSV and spreadsheet libraries are opaque
 * producers: their output enters as a table of optional cell texts, where
 * None stands for a cell that is `null` or `undefined` (including a cell past
 * the end of a short row) and Some(t) for a cell whose `String(...)` is t.
 * A header cell that is None is taken to be `null`: with `defval: ""` the
 * spreadsheet library yields neither, and `String(undefined)` would differ.
 */
module FileParsers {
  import opened Wrappers
  import opened Text

  /** Array-of-arrays output of `Papa.parse` or `sheet_to_json(..., {header: 1})`. */
  type Table = seq<seq<Option<string>>>

  /** One output row: `Object.fromEntries` of (column, cell text) pairs. */
  type NormalizedRow = map<string, string>

  datatype ParsedFile = ParsedFile(columns: seq<string>, rows: seq<NormalizedRow>)

  /** Which branch `parseFileToRows` takes. */
  datatype FileKind = Csv | Workbook | Unsupported

  /** The template literal `Column ${index + 1}`. */
  function Placeholder(index: nat): string {
    "Column " + NatToString(index + 1)
  }

  /** `normalizeHeader`: the trimmed header, or a positional placeholder when it is blank. */
  function NormalizeHeader(header: string, index: nat): (r: string)
    ensures r != []
    ensures !AllSpace(header) ==> r == Trim(header)
    ensures AllSpace(header) ==> r == Placeholder(index)
  {
    var trimmed := Trim(header);
    if trimmed != [] then trimmed else Placeholder(index)
  }

  /** Blank headers at different positions get different placeholder names. */
  lemma PlaceholdersDistinct(h1: string, h2: string, i: nat, j: nat)
    requires AllSpace(h1) && AllSpace(h2) && i != j
    ensures NormalizeHeader(h1, i) != NormalizeHeader(h2, j)
  {
    var p, q := Placeholder(i), Placeholder(j);
    if p == q {
      assert NatToString(i + 1) == p[7..];
      assert NatToString(j + 1) == q[7..];
      NatToStringInjective(i + 1, j + 1);
    }
  }

  /** The text handed to `normalizeHeader`: the CSV branch maps a null header to ""
      (`String(header ?? "")`), the workbook branch stringifies it (`String(header)`). */
  function HeaderText(kind: FileKind, cell: Option<string>): (r: string)
    ensures cell.Some? ==> r == cell.value
    ensures cell.None? ==> (r == "" <==> kind == Csv)
  {
    match cell
    case Some(t) => t
    case None => if kind == Csv then "" else "null"
  }

  /** `row?.[index] == null ? "" : String(row[index]).trim()` */
  function CellText(row: seq<Option<string>>, index: nat): (r: string)
    ensures index < |row| && row[index].Some? ==> r == Trim(row[index].value)
    ensures (index >= |row| || row[index].None?) ==> r == ""
  {
    if index < |row| && row[index].Some? then Trim(row[index].value) else ""
  }

  /** `index` is the last position at which its column name occurs. */
  predicate IsLastOccurrence(columns: seq<string>, index: nat)
    requires index < |columns|
  {
    forall k :: index < k < |columns| ==> columns[k] != columns[index]
  }

  /** `Object.fromEntries` of the pairs (keys[i], values[i]): entries are
      added left to right, so of two equal keys the later one wins. */
  function FromEntries(keys: seq<string>, values: seq<string>): NormalizedRow
    requires |keys| == |values|
  {
    if keys == [] then map[]
    else FromEntries(keys[..|keys| - 1], values[..|keys| - 1])[keys[|keys| - 1] := values[|keys| - 1]]
  }

  /** The object has exactly the given keys. */
  lemma {:induction false} FromEntriesKeys(keys: seq<string>, values: seq<string>)
    requires |keys| == |values|
    ensures forall c :: c in FromEntries(keys, values) <==> c in keys
  {
    if keys != [] {
      var n := |keys| - 1;
      FromEntriesKeys(keys[..n], values[..n]);
      assert keys == keys[..n] + [keys[n]];
    }
  }

  /** Under each key the object holds the value paired with its last occurrence. */
  lemma {:induction false} FromEntriesValue(keys: seq<string>, values: seq<string>, j: nat)
    requires |keys| == |values| && j < |keys| && IsLastOccurrence(keys, j)
    ensures keys[j] in FromEntries(keys, values) && FromEntries(keys, values)[keys[j]] == values[j]
  {
    var n := |keys| - 1;
    if j < n {
      var init, vinit := keys[..n], values[..n];
      assert keys[j] != keys[n];
      assert IsLastOccurrence(init, j) by {
        forall k | j < k < n
          ensures init[k] != init[j]
        {
          assert init[k] == keys[k] && init[j] == keys[j];
        }
      }
      FromEntriesValue(init, vinit, j);
      assert vinit[j] == values[j];
    }
  }

  /** The cell texts of a data row, one per column. */
  function Cells(row: seq<Option<string>>, width: nat): (cells: seq<string>)
    ensures |cells| == width && forall i :: 0 <= i < width ==> cells[i] == CellText(row, i)
  {
    seq(width, i requires 0 <= i < width => CellText(row, i))
  }

  /** `Object.fromEntries(columns.map((column, index) => [column, cell]))` */
  function BuildRow(columns: seq<string>, row: seq<Option<string>>): NormalizedRow {
    FromEntries(columns, Cells(row, |columns|))
  }

  /** A built row has exactly the columns as keys, and under each column the
      cell at the last position carrying that name. */
  lemma BuildRowHasEveryColumn(columns: seq<string>, row: seq<Option<string>>)
    ensures forall c :: c in BuildRow(columns, row) <==> c in columns
    ensures forall j :: 0 <= j < |columns| && IsLastOccurrence(columns, j) ==>
              BuildRow(columns, row)[columns[j]] == CellText(row, j)
  {
    var cells := Cells(row, |columns|);
    FromEntriesKeys(columns, cells);
    forall j | 0 <= j < |columns| && IsLastOccurrence(columns, j)
      ensures BuildRow(columns, row)[columns[j]] == CellText(row, j)
    {
      FromEntriesValue(columns, cells, j);
    }
  }

  /** Header and row construction shared by both branches: the first table row
      names the columns (an empty table has no header) and every later row
      becomes one record. */
  function Tabulate(kind: FileKind, table: Table): (r: ParsedFile)
    ensures table == [] ==> r.columns == [] && r.rows == []
    ensures table != [] ==> |r.columns| == |table[0]| && |r.rows| == |table| - 1
    ensures table != [] ==> forall i :: 0 <= i < |table[0]| ==>
              r.columns[i] == NormalizeHeader(HeaderText(kind, table[0][i]), i)
  {
    if table == [] then ParsedFile([], [])
    else
      var header := table[0];
      var columns := seq(|header|, i requires 0 <= i < |header| => NormalizeHeader(HeaderText(kind, header[i]), i));
      var data := table[1..];
      ParsedFile(columns, seq(|data|, k requires 0 <= k < |data| => BuildRow(columns, data[k])))
  }

  /** Every output row has a value for every column, taken from the data row
      one past its own index (the header row is skipped). */
  lemma TabulatedRowsHaveEveryColumn(kind: FileKind, table: Table)
    ensures var r := Tabulate(kind, table);
            forall k :: 0 <= k < |r.rows| ==>
              && (forall c :: c in r.rows[k] <==> c in r.columns)
              && (forall j :: 0 <= j < |r.columns| && IsLastOccurrence(r.columns, j) ==>
                    r.rows[k][r.columns[j]] == CellText(table[k + 1], j))
  {
    var r := Tabulate(kind, table);
    forall k | 0 <= k < |r.rows|
      ensures forall c :: c in r.rows[k] <==> c in r.columns
      ensures forall j :: 0 <= j < |r.columns| && IsLastOccurrence(r.columns, j) ==>
                r.rows[k][r.columns[j]] == CellText(table[k + 1], j)
    {
      BuildRowHasEveryColumn(r.columns, table[k + 1]);
    }
  }

  /** What `file.name.split(".").pop()` yields: the text after the last dot,
      or the whole name when it has none. */
  function LastSegment(name: string): (r: string)
    ensures |r| <= |name| && r == name[|name| - |r|..]
    ensures '.' !in r
    ensures |r| < |name| ==> name[|name| - |r| - 1] == '.'
  {
    if name == [] || name[|name| - 1] == '.' then []
    else LastSegment(name[..|name| - 1]) + [name[|name| - 1]]
  }

  /** The branch chosen by the lowercased extension. */
  function Kind(name: string): (k: FileKind)
    ensures k == Csv <==> ToLower(LastSegment(name)) == "csv"
    ensures k == Workbook <==> ToLower(LastSegment(name)) in {"xlsx", "xls"}
  {
    var extension := ToLower(LastSegment(name));
    if extension == "csv" then Csv
    else if extension == "xlsx" || extension == "xls" then Workbook
    else Unsupported
  }

  /**
   * `parseFileToRows`. `csvTable` is what `Papa.parse` (skipping empty lines)
   * yields for the file's text, `firstSheet` the array-of-arrays of the
   * workbook's first sheet, None when it has no first sheet.
   */
  function ParseFileToRows(name: string, csvTable: Table, firstSheet: Option<Table>): (r: ParsedFile)
    ensures Kind(name) == Csv ==> r == Tabulate(Csv, csvTable)
    ensures Kind(name) == Workbook && firstSheet.Some? ==> r == Tabulate(Workbook, firstSheet.value)
    ensures Kind(name) == Workbook && firstSheet.None? ==> r == ParsedFile([], [])
    ensures Kind(name) == Unsupported ==> r == ParsedFile([], [])
  {
    match Kind(name)
    case Csv => Tabulate(Csv, csvTable)
    case Workbook => if firstSheet.None? then ParsedFile([], []) else Tabulate(Workbook, firstSheet.value)
    case Unsupported => ParsedFile([], [])
  }

  /** The extension is whatever follows the last dot. */
  lemma {:induction false} LastSegmentAfterDot(stem: string, extension: string)
    requires '.' !in extension
    ensures LastSegment(stem + "." + extension) == extension
  {
    var name := stem + "." + extension;
    if extension == [] {
      assert name[|name| - 1] == '.';
    } else {
      var n := |extension| - 1;
      assert name[..|name| - 1] == stem + "." + extension[..n];
      assert '.' !in extension[..n] by {
        assert forall c :: c in extension[..n] ==> c in extension;
      }
      LastSegmentAfterDot(stem, extension[..n]);
      assert extension == extension[..n] + [extension[n]];
    }
  }

  /** The extension is matched case-insensitively, after the last dot only. */
  lemma UpperCaseCsvExtension(csvTable: Table, firstSheet: Option<Table>)
    ensures ParseFileToRows("bank.2024.CSV", csvTable, firstSheet) == Tabulate(Csv, csvTable)
  {
    LastSegmentAfterDot("bank.2024", "CSV");
    assert "bank.2024" + "." + "CSV" == "bank.2024.CSV";
    assert ToLower("CSV") == "csv";
  }

  /** A known extension elsewhere in the name does not count: only the last one does. */
  lemma InnerExtensionIgnored(csvTable: Table, firstSheet: Option<Table>)
    ensures ParseFileToRows("export.xlsx.pdf", csvTable, firstSheet) == ParsedFile([], [])
  {
    LastSegmentAfterDot("export.xlsx", "pdf");
    assert "export.xlsx" + "." + "pdf" == "export.xlsx.pdf";
    assert ToLower("pdf") == "pdf";
  }
}
