/**
 * `AdaptiveTableExtractor`: the checks that decide whether a grid found on a page is a
 * real table, and the normalisation of an accepted grid into a header and rows of the
 * header's width.
 */
module TableExtraction {
  import opened Wrappers
  import opened Text
  import opened Config
  import opened Collecting

  /** A cell as the PDF library returns it: text, or `None` for an empty cell. */
  type Cell = Option<string>
  type RawRow = seq<Cell>
  /** One grid from `page.extract_tables()`. */
  type RawGrid = seq<RawRow>

  /** `page.extract_tables()`: the grids of the page, or a failure of the library. */
  datatype TablesRead = Grids(grids: seq<RawGrid>) | ReadFails

  /** The table record of `_structure_table`, without the pandas views of it. */
  datatype TableRecord = TableRecord(
    pageNumber: int,
    tableIndex: int,
    header: seq<string>,
    data: seq<seq<string>>,
    rowCount: int,
    columnCount: int)

  /** `cell and str(cell).strip()`: a cell with visible text. */
  predicate IsFilledCell(c: Cell) {
    c.Some? && Strip(c.value) != []
  }

  /** `row and any(str(cell).strip() for cell in row if cell)` */
  predicate IsNonEmptyRow(row: RawRow) {
    exists i | 0 <= i < |row| :: IsFilledCell(row[i])
  }

  /** `[row for row in table if row and any(...)]` */
  function NonEmptyRows(table: RawGrid): seq<RawRow> {
    if table == [] then []
    else if IsNonEmptyRow(table[0]) then [table[0]] + NonEmptyRows(table[1..])
    else NonEmptyRows(table[1..])
  }

  /** The rows kept are non-empty, no more than the grid has, and no non-empty row of the grid is dropped. */
  lemma {:induction false} NonEmptyRowsKeepsExactly(table: RawGrid)
    ensures var r := NonEmptyRows(table);
      && |r| <= |table|
      && (forall i | 0 <= i < |r| :: IsNonEmptyRow(r[i]))
      && (forall i | 0 <= i < |table| && IsNonEmptyRow(table[i]) :: table[i] in r)
  {
    if table != [] {
      NonEmptyRowsKeepsExactly(table[1..]);
      forall i | 0 <= i < |table| && IsNonEmptyRow(table[i])
        ensures table[i] in NonEmptyRows(table)
      {
        if i > 0 {
          assert table[i] == table[1..][i - 1];
        }
      }
    }
  }

  /** The first kept row is the first non-empty row of the grid, in grid order. */
  lemma {:induction false} FirstNonEmptyRow(table: RawGrid) returns (k: nat)
    requires NonEmptyRows(table) != []
    ensures k < |table| && IsNonEmptyRow(table[k]) && NonEmptyRows(table)[0] == table[k]
    ensures forall i | 0 <= i < k :: !IsNonEmptyRow(table[i])
  {
    if IsNonEmptyRow(table[0]) {
      k := 0;
    } else {
      var j := FirstNonEmptyRow(table[1..]);
      k := j + 1;
      forall i | 0 <= i < k
        ensures !IsNonEmptyRow(table[i])
      {
        if i > 0 {
          assert table[i] == table[1..][i - 1];
        }
      }
    }
  }

  // ---------------------------------------------------------------- validation

  /** `sum(len(row) for row in rows)` */
  function CellCount(rows: seq<RawRow>): nat {
    if rows == [] then 0 else |rows[0]| + CellCount(rows[1..])
  }

  /** The filled cells of one row. */
  function FilledCount(row: RawRow): nat {
    if row == [] then 0 else (if IsFilledCell(row[0]) then 1 else 0) + FilledCount(row[1..])
  }

  /** `sum(1 for row in rows for cell in row if cell and str(cell).strip())` */
  function FilledCells(rows: seq<RawRow>): nat {
    if rows == [] then 0 else FilledCount(rows[0]) + FilledCells(rows[1..])
  }

  /** `cell and len(str(cell).strip()) > limit`: a missing or empty cell is never counted. */
  predicate IsLongCell(limit: int, c: Cell) {
    c.Some? && c.value != [] && |Strip(c.value)| > limit
  }

  /** The over-long cells of one row. */
  function LongCount(limit: int, row: RawRow): nat {
    if row == [] then 0 else (if IsLongCell(limit, row[0]) then 1 else 0) + LongCount(limit, row[1..])
  }

  /** `sum(1 for row in rows for cell in row if cell and len(str(cell).strip()) > limit)` */
  function LongCells(limit: int, rows: seq<RawRow>): nat {
    if rows == [] then 0 else LongCount(limit, rows[0]) + LongCells(limit, rows[1..])
  }

  /** `max(len(row) for row in rows)` for a non-empty list of rows. */
  function MaxWidth(rows: seq<RawRow>): (m: nat)
    requires rows != []
    ensures forall i | 0 <= i < |rows| :: |rows[i]| <= m
    ensures exists i | 0 <= i < |rows| :: |rows[i]| == m
  {
    if |rows| == 1 then |rows[0]|
    else
      var rest := MaxWidth(rows[1..]);
      assert forall i | 1 <= i < |rows| :: rows[i] == rows[1..][i - 1];
      if |rows[0]| < rest then rest else |rows[0]|
  }

  /**
   * `_validate_table`. `None` is the `ValueError` that `max()` raises when no row is
   * non-empty but the row minimum is not positive.
   */
  function ValidateTable(cfg: ExtractionConfig, table: RawGrid): Option<bool>
  {
    if table == [] then Some(false)
    else
      var rows := NonEmptyRows(table);
      if |rows| < cfg.minTableRows then Some(false)
      else if rows == [] then None
      else if MaxWidth(rows) < cfg.minTableCols then Some(false)
      else
        var total := CellCount(rows);
        var filled := FilledCells(rows);
        if total == 0 then Some(false)
        else if 1000 * filled < cfg.minTableCellFillPermille * total then Some(false)
        else if 2 * LongCells(cfg.maxCellLength, rows) > |rows| then Some(false)
        else Some(true)
  }

  /** A row has at most as many filled cells as cells, and a non-empty row has one. */
  lemma {:induction false} FilledCountBounds(row: RawRow)
    ensures FilledCount(row) <= |row|
    ensures IsNonEmptyRow(row) ==> FilledCount(row) >= 1
  {
    if row != [] {
      FilledCountBounds(row[1..]);
      if IsNonEmptyRow(row) && !IsFilledCell(row[0]) {
        var i :| 0 <= i < |row| && IsFilledCell(row[i]);
        assert row[1..][i - 1] == row[i];
      }
    }
  }

  /** Rows that are all non-empty have at least one filled cell each, and never more filled cells than cells. */
  lemma {:induction false} FilledCellsBounds(rows: seq<RawRow>)
    requires forall i | 0 <= i < |rows| :: IsNonEmptyRow(rows[i])
    ensures |rows| <= FilledCells(rows) <= CellCount(rows)
  {
    if rows != [] {
      FilledCountBounds(rows[0]);
      assert forall i | 0 <= i < |rows[1..]| :: rows[1..][i] == rows[i + 1];
      FilledCellsBounds(rows[1..]);
    }
  }

  /**
   * `_validate_table` raises exactly when the grid has no non-empty row and the row minimum
   * is not positive. It accepts exactly when the grid is not empty, has at least
   * `min_table_rows` non-empty rows and at least one, its widest non-empty row has at least
   * `min_table_cols` cells, at least the configured share of the cells is filled, and at
   * most half as many cells as non-empty rows are over-long: the `total_cells == 0` test
   * never decides, since every non-empty row has a filled cell.
   */
  lemma {:induction false} ValidateTableDecides(cfg: ExtractionConfig, table: RawGrid)
    ensures ValidateTable(cfg, table).None? <==> table != [] && NonEmptyRows(table) == [] && cfg.minTableRows <= 0
    ensures ValidateTable(cfg, table) == Some(true) <==>
      var rows := NonEmptyRows(table);
      && table != [] && rows != []
      && |rows| >= cfg.minTableRows
      && MaxWidth(rows) >= cfg.minTableCols
      && 1000 * FilledCells(rows) >= cfg.minTableCellFillPermille * CellCount(rows)
      && 2 * LongCells(cfg.maxCellLength, rows) <= |rows|
  {
    var rows := NonEmptyRows(table);
    NonEmptyRowsKeepsExactly(table);
    FilledCellsBounds(rows);
  }

  /** Every configuration the classifier chooses needs two non-empty rows, so `max()` never raises there. */
  lemma {:induction false} ValidateTableTotalForTypes(t: BookType, table: RawGrid)
    ensures ValidateTable(ConfigForType(t), table).Some?
  {
    assert ConfigForType(t).minTableRows == 2;
  }

  // ---------------------------------------------------------------- structuring

  /** `str(cell).strip() if cell else ""` */
  function CleanCell(c: Cell): string {
    if c.Some? && c.value != [] then Strip(c.value) else ""
  }

  /** `[str(cell).strip() if cell else "" for cell in row]` */
  function CleanRow(row: RawRow): (r: seq<string>)
    ensures |r| == |row|
  {
    if row == [] then [] else [CleanCell(row[0])] + CleanRow(row[1..])
  }

  /** Cleaning works cell by cell. */
  lemma {:induction false} CleanRowAt(row: RawRow, i: nat)
    requires i < |row|
    ensures CleanRow(row)[i] == CleanCell(row[i])
  {
    if i > 0 {
      CleanRowAt(row[1..], i - 1);
    }
  }

  /** `any(cleaned)` */
  predicate AnyFilled(cleaned: seq<string>) {
    exists i | 0 <= i < |cleaned| :: cleaned[i] != []
  }

  /** A non-empty row still has a filled cell after cleaning, so the structuring loop never skips one. */
  lemma {:induction false} CleanNonEmptyRowIsFilled(row: RawRow)
    requires IsNonEmptyRow(row)
    ensures AnyFilled(CleanRow(row))
  {
    var i :| 0 <= i < |row| && IsFilledCell(row[i]);
    CleanRowAt(row, i);
    assert CleanRow(row)[i] != [];
  }

  /** `[pad] * n` */
  function Repeat<T>(pad: T, n: nat): (r: seq<T>)
    ensures |r| == n
  {
    if n == 0 then [] else [pad] + Repeat(pad, n - 1)
  }

  /** Every element of `[pad] * n` is `pad`. */
  lemma {:induction false} RepeatAt<T>(pad: T, n: nat, j: nat)
    requires j < n
    ensures Repeat(pad, n)[j] == pad
  {
    if j > 0 {
      RepeatAt(pad, n - 1, j - 1);
    }
  }

  /** `row + [pad] * (width - len(row))` or `row[:width]`: the row made exactly `width` long. */
  function FitRow<T>(row: seq<T>, width: nat, pad: T): (r: seq<T>)
    ensures |r| == width
  {
    if |row| < width then row + Repeat(pad, width - |row|)
    else if |row| > width then row[..width]
    else row
  }

  /** A fitted row keeps the row's cells up to `width` and is `pad` after them. */
  lemma {:induction false} FitRowAt<T>(row: seq<T>, width: nat, pad: T, j: nat)
    requires j < width
    ensures FitRow(row, width, pad)[j] == (if j < |row| then row[j] else pad)
  {
    if |row| <= j {
      RepeatAt(pad, width - |row|, j - |row|);
    }
  }

  /** Every row of `rows` fitted to `width`. */
  function FitRows<T>(rows: seq<seq<T>>, width: nat, pad: T): (r: seq<seq<T>>)
    ensures |r| == |rows|
  {
    if rows == [] then [] else FitRows(rows[..|rows| - 1], width, pad) + [FitRow(rows[|rows| - 1], width, pad)]
  }

  /** Fitting works row by row. */
  lemma {:induction false} FitRowsAt<T>(rows: seq<seq<T>>, width: nat, pad: T, i: nat)
    requires i < |rows|
    ensures FitRows(rows, width, pad)[i] == FitRow(rows[i], width, pad)
  {
    if i < |rows| - 1 {
      FitRowsAt(rows[..|rows| - 1], width, pad, i);
    }
  }

  /** Every row cleaned. */
  function CleanRows(rows: seq<RawRow>): (r: seq<seq<string>>)
    ensures |r| == |rows|
  {
    if rows == [] then [] else CleanRows(rows[..|rows| - 1]) + [CleanRow(rows[|rows| - 1])]
  }

  /** The first loop of `_structure_table`: the first row, cleaned, becomes the header, the rest, cleaned, the data. */
  method SplitHeader(rows: seq<RawRow>) returns (header: Option<seq<string>>, data: seq<seq<string>>)
    ensures rows == [] ==> header.None? && data == []
    ensures rows != [] ==> header == Some(CleanRow(rows[0])) && data == CleanRows(rows[1..])
  {
    header := None;
    data := [];
    for i := 0 to |rows|
      invariant i == 0 ==> header.None? && data == []
      invariant 0 < i ==> header == Some(CleanRow(rows[0])) && data == CleanRows(rows[1..i])
    {
      var cleaned := CleanRow(rows[i]);
      if header.None? {
        header := Some(cleaned);
      } else {
        assert rows[1..i + 1][..i - 1] == rows[1..i];
        data := data + [cleaned];
      }
    }
    if rows != [] {
      assert rows[1..|rows|] == rows[1..];
    }
  }

  /** The normalisation loop of `_structure_table`: each row padded with `pad` or cut to `width`. */
  method PadRows<T>(rows: seq<seq<T>>, width: nat, pad: T) returns (normalized: seq<seq<T>>)
    ensures normalized == FitRows(rows, width, pad)
  {
    normalized := [];
    for i := 0 to |rows|
      invariant normalized == FitRows(rows[..i], width, pad)
    {
      var row := rows[i];
      if |row| < width {
        row := row + Repeat(pad, width - |row|);
      } else if |row| > width {
        row := row[..width];
      }
      assert rows[..i + 1][..i] == rows[..i];
      normalized := normalized + [row];
    }
    assert rows[..|rows|] == rows;
  }

  /** A record whose counts match its contents and whose rows all have the header's width. */
  predicate WellFormed(t: TableRecord) {
    && t.rowCount == |t.data| >= 1
    && t.columnCount == |t.header|
    && forall i | 0 <= i < |t.data| :: |t.data[i]| == t.columnCount
  }

  /**
   * What `_structure_table` returns: nothing without two non-empty rows; otherwise the
   * first non-empty row, cleaned, as header, and the cleaned later non-empty rows, padded
   * with "" or cut to the header's width, as data.
   */
  function StructuredTable(table: RawGrid, pageNumber: int, tableIndex: int): Option<TableRecord> {
    var rows := NonEmptyRows(table);
    if |rows| < 2 then None
    else
      var header := CleanRow(rows[0]);
      var data := FitRows(CleanRows(rows[1..]), |header|, "");
      Some(TableRecord(pageNumber, tableIndex, header, data, |data|, |header|))
  }

  /**
   * A grid yields a record exactly when it has two non-empty rows, and the record is well
   * formed, carries the page and grid position, and has one data row per non-empty row
   * after the header.
   */
  lemma {:induction false} StructuredTableShape(table: RawGrid, pageNumber: int, tableIndex: int)
    ensures var r := StructuredTable(table, pageNumber, tableIndex);
      && (r.None? <==> |NonEmptyRows(table)| < 2)
      && (r.Some? ==>
        && WellFormed(r.value)
        && r.value.pageNumber == pageNumber && r.value.tableIndex == tableIndex
        && r.value.rowCount == |NonEmptyRows(table)| - 1)
  {
    var rows := NonEmptyRows(table);
    if 2 <= |rows| {
      var header := CleanRow(rows[0]);
      var data := FitRows(CleanRows(rows[1..]), |header|, "");
      forall i | 0 <= i < |data|
        ensures |data[i]| == |header|
      {
        FitRowsAt(CleanRows(rows[1..]), |header|, "", i);
      }
    }
  }

  /** The header is the first row of the grid, in grid order, that has a filled cell. */
  lemma {:induction false} HeaderIsFirstNonEmptyRow(table: RawGrid, pageNumber: int, tableIndex: int) returns (k: nat)
    requires StructuredTable(table, pageNumber, tableIndex).Some?
    ensures k < |table| && IsNonEmptyRow(table[k])
    ensures forall i | 0 <= i < k :: !IsNonEmptyRow(table[i])
    ensures StructuredTable(table, pageNumber, tableIndex).value.header == CleanRow(table[k])
  {
    k := FirstNonEmptyRow(table);
  }

  /** Under the row minimum of every configuration the classifier chooses, an accepted grid always yields a record. */
  lemma {:induction false} AcceptedTableIsStructured(cfg: ExtractionConfig, table: RawGrid, pageNumber: int, tableIndex: int)
    requires cfg.minTableRows >= 2 && ValidateTable(cfg, table) == Some(true)
    ensures StructuredTable(table, pageNumber, tableIndex).Some?
  {
    StructuredTableShape(table, pageNumber, tableIndex);
  }

  /**
   * `_structure_table`. The skip of rows that clean to nothing never fires, since every
   * row here is non-empty (`CleanNonEmptyRowIsFilled`).
   */
  method StructureTable(table: RawGrid, pageNumber: int, tableIndex: int) returns (r: Option<TableRecord>)
    ensures r == StructuredTable(table, pageNumber, tableIndex)
  {
    var rows := NonEmptyRows(table);
    if rows == [] {
      return None;
    }
    var header, data := SplitHeader(rows);
    if data == [] {
      return None;
    }
    var width := |header.value|;
    var normalized := PadRows(data, width, "");
    r := Some(TableRecord(pageNumber, tableIndex, header.value, normalized, |normalized|, width));
  }

  // ---------------------------------------------------------------- per page

  /**
   * One pass of the loop of `extract` over grid number `tableIndex`: empty grids are
   * skipped, a raising validation ends the page, a rejected grid or one without data rows
   * adds nothing, and otherwise its record is kept.
   */
  function TableOutcome(cfg: ExtractionConfig, pageNumber: int, table: RawGrid, tableIndex: nat): Step<TableRecord> {
    if table == [] then Skip
    else match ValidateTable(cfg, table)
      case None => Raise
      case Some(false) => Skip
      case Some(true) =>
        var s := StructuredTable(table, pageNumber, tableIndex);
        if s.Some? then Keep(s.value) else Skip
  }

  /** `TableOutcome` for the grids of one page. */
  function TableStep(cfg: ExtractionConfig, pageNumber: int): (RawGrid, nat) -> Step<TableRecord> {
    (table: RawGrid, tableIndex: nat) => TableOutcome(cfg, pageNumber, table, tableIndex)
  }

  /** A kept record is well formed, belongs to the page, carries its grid's position, and that grid passed validation. */
  lemma {:induction false} TableStepKeeps(cfg: ExtractionConfig, pageNumber: int, table: RawGrid, tableIndex: nat)
    requires TableStep(cfg, pageNumber)(table, tableIndex).Keep?
    ensures var t := TableStep(cfg, pageNumber)(table, tableIndex).record;
      && WellFormed(t) && t.pageNumber == pageNumber && t.tableIndex == tableIndex
      && ValidateTable(cfg, table) == Some(true)
      && StructuredTable(table, pageNumber, tableIndex) == Some(t)
  {
    StructuredTableShape(table, pageNumber, tableIndex);
  }

  /** The records of one page: those of all its grids, or none when reading or a validation fails. */
  function PageTables(cfg: ExtractionConfig, read: TablesRead, pageNumber: int): (r: seq<TableRecord>)
    ensures read.ReadFails? ==> r == []
  {
    match read
    case ReadFails => []
    case Grids(grids) =>
      var ts := CollectUpTo(grids, TableStep(cfg, pageNumber), |grids|);
      if ts.Some? then ts.value else []
  }

  /**
   * Every record of a page is well formed, belongs to the page, is the structured form of
   * the grid at its 1-based position, which passed validation, and the positions increase.
   */
  lemma {:induction false} PageTablesComeFromTheirGrids(cfg: ExtractionConfig, grids: seq<RawGrid>, pageNumber: int)
    ensures var r := PageTables(cfg, Grids(grids), pageNumber);
      && (forall i | 0 <= i < |r| ::
        && WellFormed(r[i]) && r[i].pageNumber == pageNumber
        && 1 <= r[i].tableIndex <= |grids|
        && ValidateTable(cfg, grids[r[i].tableIndex - 1]) == Some(true)
        && StructuredTable(grids[r[i].tableIndex - 1], pageNumber, r[i].tableIndex) == Some(r[i]))
      && (forall i, j | 0 <= i < j < |r| :: r[i].tableIndex < r[j].tableIndex)
  {
    var step := TableStep(cfg, pageNumber);
    var ts := CollectUpTo(grids, step, |grids|);
    if ts.Some? {
      var origin := CollectOrigins(grids, step, |grids|);
      forall i | 0 <= i < |ts.value|
        ensures ts.value[i].tableIndex == origin[i]
        ensures WellFormed(ts.value[i]) && ts.value[i].pageNumber == pageNumber
        ensures ValidateTable(cfg, grids[origin[i] - 1]) == Some(true)
        ensures StructuredTable(grids[origin[i] - 1], pageNumber, origin[i]) == Some(ts.value[i])
      {
        TableStepKeeps(cfg, pageNumber, grids[origin[i] - 1], origin[i]);
      }
    }
  }

  /** The body of the loop of `extract` for grid number `tableIndex`. */
  method ExamineGrid(cfg: ExtractionConfig, table: RawGrid, pageNumber: int, tableIndex: nat) returns (s: Step<TableRecord>)
    ensures s == TableStep(cfg, pageNumber)(table, tableIndex)
  {
    if table == [] {
      return Skip;
    }
    var valid := ValidateTable(cfg, table);
    if valid.None? {
      return Raise;
    }
    if !valid.value {
      return Skip;
    }
    var structured := StructureTable(table, pageNumber, tableIndex);
    if structured.Some? {
      s := Keep(structured.value);
    } else {
      s := Skip;
    }
  }

  /** `AdaptiveTableExtractor.extract` for one page. */
  method ExtractPageTables(cfg: ExtractionConfig, read: TablesRead, pageNumber: int) returns (tables: seq<TableRecord>)
    ensures tables == PageTables(cfg, read, pageNumber)
  {
    if read.ReadFails? {
      return [];
    }
    var collected := CollectGrids(cfg, read.grids, pageNumber);
    tables := if collected.Some? then collected.value else [];
  }

  /** The loop of `extract` over the grids of a page; `None` when a validation raised. */
  method CollectGrids(cfg: ExtractionConfig, grids: seq<RawGrid>, pageNumber: int) returns (r: Option<seq<TableRecord>>)
    ensures r == CollectUpTo(grids, TableStep(cfg, pageNumber), |grids|)
  {
    var step := TableStep(cfg, pageNumber);
    var tables := [];
    for idx := 0 to |grids|
      invariant CollectUpTo(grids, step, idx) == Some(tables)
    {
      var outcome := ExamineGrid(cfg, grids[idx], pageNumber, idx + 1);
      CollectAdvances(grids, step, idx, tables, outcome);
      if outcome.Raise? {
        CollectStaysFailed(grids, step, idx + 1);
        return None;
      }
      tables := Advance(tables, outcome).value;
    }
    r := Some(tables);
  }
}
