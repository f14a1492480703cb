/**
 * The XLSX extractor: one "Sheet: <name>" line per sheet, then one line per
 * row that has a non-empty cell. Opening the workbook is a parameter (its
 * sheets, or the message of the exception it raised); a cell is the text
 * str() gives its value, or None for an empty cell.
 */
module ParseXlsx {
  import opened Wrappers
  import opened Text
  import opened Seqs

  type Row = seq<Option<string>>

  datatype Sheet = Sheet(name: string, rows: seq<Row>)

  /** `[str(cell) if cell is not None else "" for cell in row]` */
  function Cells(row: Row): (r: seq<string>)
    ensures |r| == |row| && forall i :: 0 <= i < |row| ==> r[i] == row[i].GetOr("")
  {
    seq(|row|, i requires 0 <= i < |row| => row[i].GetOr(""))
  }

  /** `any(cells)`: some cell renders to a non-empty string. */
  predicate Kept(row: Row)
  {
    exists i :: 0 <= i < |row| && Cells(row)[i] != ""
  }

  /** `" | ".join(cells)` */
  function RowText(row: Row): string
  {
    Join(Cells(row), " | ")
  }

  /** The lines of the kept rows, in order. */
  function RowLines(rows: seq<Row>): seq<string>
  {
    if rows == [] then []
    else RowLines(rows[..|rows| - 1]) + (if Kept(rows[|rows| - 1]) then [RowText(rows[|rows| - 1])] else [])
  }

  function SheetLines(sheet: Sheet): (r: seq<string>)
    ensures |r| >= 1 && r[0] == "Sheet: " + sheet.name && r[1..] == RowLines(sheet.rows)
  {
    ["Sheet: " + sheet.name] + RowLines(sheet.rows)
  }

  /** The lines of the first sheets, in sheet order. */
  function WorkbookLines(sheets: seq<Sheet>): seq<string>
  {
    if sheets == [] then [] else WorkbookLines(sheets[..|sheets| - 1]) + SheetLines(sheets[|sheets| - 1])
  }

  /** extract_text_from_xlsx */
  function ExtractXlsx(workbook: Result<seq<Sheet>>): (r: string)
    ensures workbook.Err? ==> StartsWith(r, "Error reading XLSX: ") && r[|"Error reading XLSX: "|..] == workbook.message
  {
    match workbook
    case Ok(sheets) => Strip(Join(WorkbookLines(sheets), "\n"))
    case Err(e) => "Error reading XLSX: " + e
  }

  /** The row lines are exactly the kept rows, rendered, in order: a row is left out iff every cell renders to "". */
  lemma {:induction false} RowLinesAreKeptRows(rows: seq<Row>)
    ensures |RowLines(rows)| == |Filter(rows, Kept)|
    ensures forall i :: 0 <= i < |RowLines(rows)| ==> RowLines(rows)[i] == RowText(Filter(rows, Kept)[i])
  {
    if rows != [] {
      RowLinesAreKeptRows(rows[..|rows| - 1]);
    }
  }

  /** A row is dropped exactly when all its cells are None or render to "". */
  lemma RowDroppedIff(row: Row)
    ensures RowLines([row]) == [] <==> forall i :: 0 <= i < |row| ==> row[i].GetOr("") == ""
    ensures RowLines([row]) != [] ==> RowLines([row]) == [Join(Cells(row), " | ")]
  {
    assert [row][..0] == [];
    if !Kept(row) {
      forall i | 0 <= i < |row| ensures row[i].GetOr("") == "" {
        assert Cells(row)[i] == row[i].GetOr("");
      }
    }
  }

  /** The lines of consecutive sheets follow each other. */
  lemma {:induction false} WorkbookConcat(a: seq<Sheet>, b: seq<Sheet>)
    ensures WorkbookLines(a + b) == WorkbookLines(a) + WorkbookLines(b)
  {
    if b == [] {
      assert a + b == a;
    } else {
      assert (a + b)[..|a + b| - 1] == a + b[..|b| - 1];
      WorkbookConcat(a, b[..|b| - 1]);
    }
  }

  /**
   * Sheet i's header comes right after the lines of the sheets before it,
   * followed by its kept rows, whether or not it has any.
   */
  lemma SheetBlock(sheets: seq<Sheet>, i: nat)
    requires i < |sheets|
    ensures var before := |WorkbookLines(sheets[..i])|;
      && before + 1 + |RowLines(sheets[i].rows)| <= |WorkbookLines(sheets)|
      && WorkbookLines(sheets)[before] == "Sheet: " + sheets[i].name
      && WorkbookLines(sheets)[before + 1..before + 1 + |RowLines(sheets[i].rows)|] == RowLines(sheets[i].rows)
  {
    assert sheets == sheets[..i] + [sheets[i]] + sheets[i + 1..];
    WorkbookConcat(sheets[..i] + [sheets[i]], sheets[i + 1..]);
    WorkbookConcat(sheets[..i], [sheets[i]]);
    assert WorkbookLines([sheets[i]]) == SheetLines(sheets[i]) by {
      assert [sheets[i]][..0] == [];
    }
  }

  /** A workbook with no sheets gives the empty text. */
  lemma NoSheets()
    ensures ExtractXlsx(Ok([])) == ""
  {
    assert AllSpace("");
  }

  /** The kept rows of one sheet, as the inner loop collects them. */
  method ReadRows(rows: seq<Row>) returns (lines: seq<string>)
    ensures lines == RowLines(rows)
  {
    lines := [];
    for i := 0 to |rows|
      invariant lines == RowLines(rows[..i])
    {
      assert rows[..i + 1][..i] == rows[..i];
      var cells := Cells(rows[i]);
      if Kept(rows[i]) {
        lines := lines + [Join(cells, " | ")];
      }
    }
    assert rows[..|rows|] == rows;
  }

  /** extract_text_from_xlsx as the source runs it: the loop over sheets appending to `lines`. */
  method ExtractXlsxText(workbook: Result<seq<Sheet>>) returns (text: string)
    ensures text == ExtractXlsx(workbook)
  {
    if workbook.Err? {
      return "Error reading XLSX: " + workbook.message;
    }
    var sheets := workbook.value;
    var lines: seq<string> := [];
    for i := 0 to |sheets|
      invariant lines == WorkbookLines(sheets[..i])
    {
      assert sheets[..i + 1][..i] == sheets[..i];
      var rowLines := ReadRows(sheets[i].rows);
      lines := lines + ["Sheet: " + sheets[i].name] + rowLines;
    }
    assert sheets[..|sheets|] == sheets;
    text := Strip(Join(lines, "\n"));
  }
}
