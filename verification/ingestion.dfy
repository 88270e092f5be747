/**
 * Workbook ingestion: `upload_excel_file` creates the file record, and `parse_excel_file`
 * reads the sheet, records one mapping per column, stores every data row as a JSON object
 * and moves the record through pending -> processing -> completed | failed, writing the
 * row counter every hundred rows. The spreadsheet reader is a parameter: the outcome of
 * reading with openpyxl and the outcome of reading with xlrd.
 */
module Ingestion {
  import opened Wrappers
  import opened Text
  import opened Cells
  import opened Queries
  import opened Models

  /** What the reader yields: the column labels as `str(col)`, and the data rows with their
      cells in column order. */
  datatype Sheet = Sheet(columns: seq<string>, rows: seq<seq<Cell>>)

  // ---------------------------------------------------------------------------
  // Column mappings

  /** `s.replace(' ', '_')` on a lower-cased label. */
  function Underscored(s: string): (r: string)
    ensures |r| == |s|
    ensures forall i :: 0 <= i < |s| ==> r[i] == if s[i] == ' ' then '_' else s[i]
  {
    if s == [] then [] else [if s[0] == ' ' then '_' else s[0]] + Underscored(s[1..])
  }

  /** `str(col).lower().replace(' ', '_')`: the label lower-cased, with no space left in it. */
  function FieldName(column: string): (f: string)
    ensures |f| == |column|
    ensures forall i :: 0 <= i < |f| ==> f[i] != ' ' && !IsUpper(f[i])
    ensures forall i :: 0 <= i < |f| ==> f[i] == if column[i] == ' ' then '_' else LowerChar(column[i])
  {
    Underscored(Lower(column))
  }

  /** The labels that already have a mapping. */
  function MappedColumns(ms: seq<ColumnMapping>): (cs: seq<string>)
    ensures |cs| == |ms| && forall i :: 0 <= i < |ms| ==> cs[i] == ms[i].excelColumn
  {
    if ms == [] then [] else MappedColumns(ms[..|ms| - 1]) + [ms[|ms| - 1].excelColumn]
  }

  /**
   * The mappings after the loop over the columns: `get_or_create` keyed on the label, so a
   * label that already has a mapping keeps it, and a new one gets its field name and the
   * column's position.
   */
  function MappingsAfter(ms: seq<ColumnMapping>, columns: seq<string>): seq<ColumnMapping> {
    if columns == [] then ms
    else
      var prev := MappingsAfter(ms, columns[..|columns| - 1]);
      var c := columns[|columns| - 1];
      if c in MappedColumns(prev) then prev
      else prev + [ColumnMapping(c, FieldName(c), |columns| - 1)]
  }

  /** The loop leaves the existing mappings as they were and only appends. */
  lemma {:induction false} MappingsAfterExtends(ms: seq<ColumnMapping>, columns: seq<string>)
    ensures |MappingsAfter(ms, columns)| >= |ms| && MappingsAfter(ms, columns)[..|ms|] == ms
  {
    if columns != [] {
      var init := columns[..|columns| - 1];
      MappingsAfterExtends(ms, init);
      var prev := MappingsAfter(ms, init);
      assert (prev + [ColumnMapping(columns[|columns| - 1], FieldName(columns[|columns| - 1]), |columns| - 1)])[..|ms|] == prev[..|ms|];
    }
  }

  /** Every column has a mapping after the loop. */
  lemma {:induction false} MappingsAfterCovers(ms: seq<ColumnMapping>, columns: seq<string>)
    ensures forall i :: 0 <= i < |columns| ==> columns[i] in MappedColumns(MappingsAfter(ms, columns))
  {
    if columns != [] {
      var init, c := columns[..|columns| - 1], columns[|columns| - 1];
      MappingsAfterCovers(ms, init);
      var prev := MappingsAfter(ms, init);
      var r := MappingsAfter(ms, columns);
      assert forall x :: x in MappedColumns(prev) ==> x in MappedColumns(r) by {
        if c !in MappedColumns(prev) {
          assert MappedColumns(r) == MappedColumns(prev) + [c];
        }
      }
      assert c in MappedColumns(r) by {
        if c !in MappedColumns(prev) {
          assert MappedColumns(r) == MappedColumns(prev) + [c];
        }
      }
      forall i | 0 <= i < |columns|
        ensures columns[i] in MappedColumns(r)
      {
        if i < |columns| - 1 {
          assert columns[i] == init[i];
        }
      }
    }
  }

  /** The loop never gives a label a second mapping. */
  lemma {:induction false} MappingsAfterUnique(ms: seq<ColumnMapping>, columns: seq<string>)
    requires NoDuplicates(MappedColumns(ms))
    ensures NoDuplicates(MappedColumns(MappingsAfter(ms, columns)))
  {
    if columns != [] {
      var init, c := columns[..|columns| - 1], columns[|columns| - 1];
      MappingsAfterUnique(ms, init);
      var prev := MappingsAfter(ms, init);
      if c !in MappedColumns(prev) {
        var r := MappingsAfter(ms, columns);
        assert MappedColumns(r) == MappedColumns(prev) + [c];
      }
    }
  }

  /** A mapping the loop creates carries its column's label, derived field name and position. */
  lemma {:induction false} MappingsAfterDerived(ms: seq<ColumnMapping>, columns: seq<string>, i: int)
    requires |ms| <= i < |MappingsAfter(ms, columns)|
    ensures var m := MappingsAfter(ms, columns)[i];
            0 <= m.order < |columns| && columns[m.order] == m.excelColumn && m.dbField == FieldName(m.excelColumn)
  {
    var init, c := columns[..|columns| - 1], columns[|columns| - 1];
    var prev := MappingsAfter(ms, init);
    var r := MappingsAfter(ms, columns);
    if i < |prev| {
      MappingsAfterDerived(ms, init, i);
      assert r[i] == prev[i];
      assert columns[prev[i].order] == init[prev[i].order];
    } else {
      assert r == prev + [ColumnMapping(c, FieldName(c), |columns| - 1)];
    }
  }

  /** Once every column has a mapping, the loop creates none. */
  lemma {:induction false} MappingsAfterCovered(ms: seq<ColumnMapping>, columns: seq<string>)
    requires forall i :: 0 <= i < |columns| ==> columns[i] in MappedColumns(ms)
    ensures MappingsAfter(ms, columns) == ms
  {
    if columns != [] {
      MappingsAfterCovered(ms, columns[..|columns| - 1]);
    }
  }

  /** Parsing the same sheet again adds no mapping: the mapping loop is idempotent. */
  lemma MappingsAfterIdempotent(ms: seq<ColumnMapping>, columns: seq<string>)
    ensures MappingsAfter(MappingsAfter(ms, columns), columns) == MappingsAfter(ms, columns)
  {
    MappingsAfterCovers(ms, columns);
    MappingsAfterCovered(MappingsAfter(ms, columns), columns);
  }

  /** The mapping loop of `parse_excel_file`. */
  method MapColumns(f: ExcelFile, columns: seq<string>)
    modifies f`mappings
    ensures f.mappings == MappingsAfter(old(f.mappings), columns)
  {
    for i := 0 to |columns|
      invariant f.mappings == MappingsAfter(old(f.mappings), columns[..i])
    {
      assert columns[..i + 1][..i] == columns[..i];
      var c := columns[i];
      if c !in MappedColumns(f.mappings) {
        f.mappings := f.mappings + [ColumnMapping(c, FieldName(c), i)];
      }
    }
    assert columns[..|columns|] == columns;
  }

  // ---------------------------------------------------------------------------
  // Row conversion

  /** `row[col]` for the column at position `j`; a short row reads as an empty cell. */
  function CellAt(row: seq<Cell>, j: int): Cell {
    if 0 <= j < |row| then row[j] else NaN
  }

  /**
   * The stored value of a cell: NaN and None become null, a timestamp its ISO text, and a
   * numpy scalar its plain Python value.
   */
  function ToValue(c: Cell): (v: Value)
    ensures v.Null? <==> IsNa(c)
    ensures c.TimestampCell? ==> v == Str(c.iso)
    ensures c.TextCell? ==> v == Str(c.text)
  {
    match c
    case NaN => Null
    case NoneCell => Null
    case TextCell(t) => Str(t)
    case NumberCell(l) => Num(l)
    case TimestampCell(_, iso, _) => Str(iso)
    case BoolCell(b) => Bool(b)
  }

  /** `row_data` after the loop over the columns. */
  function RowData(columns: seq<string>, row: seq<Cell>): seq<Entry> {
    if columns == [] then []
    else
      var j := |columns| - 1;
      Put(RowData(columns[..j], row), columns[j], ToValue(CellAt(row, j)))
  }

  /** A row's data has one key per distinct column label, in the order the labels first appear. */
  lemma {:induction false} RowDataKeys(columns: seq<string>, row: seq<Cell>)
    ensures Keys(RowData(columns, row)) == Distinct(columns)
    ensures NoDuplicates(Keys(RowData(columns, row)))
  {
    if columns != [] {
      var n := |columns| - 1;
      RowDataKeys(columns[..n], row);
      PutKeys(RowData(columns[..n], row), columns[n], ToValue(CellAt(row, n)));
    }
  }

  /** A label reads the value of its last column (of its only column when labels are distinct). */
  lemma {:induction false} RowDataLookup(columns: seq<string>, row: seq<Cell>, j: int)
    requires 0 <= j < |columns|
    requires forall k :: j < k < |columns| ==> columns[k] != columns[j]
    ensures Lookup(RowData(columns, row), columns[j]) == Some(ToValue(CellAt(row, j)))
  {
    var n := |columns| - 1;
    if j == n {
      RowDataLookupLast(columns, row);
    } else {
      var init := columns[..n];
      RowDataLookupEarlier(columns, row, j);
      assert init[j] == columns[j];
      assert forall k :: j < k < |init| ==> init[k] != init[j] by {
        forall k | j < k < |init|
          ensures init[k] != init[j]
        {
          assert init[k] == columns[k];
        }
      }
      RowDataLookup(init, row, j);
    }
  }

  lemma RowDataLookupLast(columns: seq<string>, row: seq<Cell>)
    requires columns != []
    ensures var n := |columns| - 1;
            Lookup(RowData(columns, row), columns[n]) == Some(ToValue(CellAt(row, n)))
  {
    var n := |columns| - 1;
    var prev := RowData(columns[..n], row);
    RowDataKeys(columns[..n], row);
    PutThenLookup(prev, columns[n], ToValue(CellAt(row, n)), columns[n]);
  }

  lemma RowDataLookupEarlier(columns: seq<string>, row: seq<Cell>, j: int)
    requires 0 <= j < |columns| - 1 && columns[j] != columns[|columns| - 1]
    ensures Lookup(RowData(columns, row), columns[j]) == Lookup(RowData(columns[..|columns| - 1], row), columns[j])
  {
    var n := |columns| - 1;
    var prev := RowData(columns[..n], row);
    var v := ToValue(CellAt(row, n));
    assert RowData(columns, row) == Put(prev, columns[n], v);
    RowDataKeys(columns[..n], row);
    PutThenLookup(prev, columns[n], v, columns[j]);
  }

  /** With distinct labels, the data has one entry per column, in column order. */
  lemma RowDataOfDistinctColumns(columns: seq<string>, row: seq<Cell>)
    requires NoDuplicates(columns)
    ensures |RowData(columns, row)| == |columns|
    ensures forall j :: 0 <= j < |columns| ==> RowData(columns, row)[j] == Entry(columns[j], ToValue(CellAt(row, j)))
  {
    RowDataKeys(columns, row);
    DistinctOfDistinct(columns);
    var data := RowData(columns, row);
    forall j | 0 <= j < |columns|
      ensures data[j] == Entry(columns[j], ToValue(CellAt(row, j)))
    {
      assert data[j].key == Keys(data)[j] == columns[j];
      RowDataLookup(columns, row, j);
      LookupAt(data, j);
    }
  }

  /** A sequence without duplicates is its own list of distinct elements. */
  lemma {:induction false} DistinctOfDistinct(ks: seq<string>)
    requires NoDuplicates(ks)
    ensures Distinct(ks) == ks
  {
    if ks != [] {
      var init, k := ks[..|ks| - 1], ks[|ks| - 1];
      DistinctOfDistinct(init);
      assert k !in init by {
        forall i | 0 <= i < |init|
          ensures init[i] != k
        {
          assert init[i] == ks[i];
        }
      }
    }
  }

  /** The inner loop of `parse_excel_file`: one sheet row to its JSON object. */
  method ConvertRow(columns: seq<string>, row: seq<Cell>) returns (data: seq<Entry>)
    ensures data == RowData(columns, row)
  {
    data := [];
    for j := 0 to |columns|
      invariant data == RowData(columns[..j], row)
    {
      assert columns[..j + 1][..j] == columns[..j];
      var value := ToValue(CellAt(row, j));
      data := Put(data, columns[j], value);
    }
    assert columns[..|columns|] == columns;
  }

  // ---------------------------------------------------------------------------
  // parse_excel_file

  /** The counter checkpoints written while `processed` runs up to `n`: one per hundred rows. */
  function Checkpoints(s: Snapshot, n: nat): seq<Snapshot> {
    if n == 0 then []
    else Checkpoints(s, n - 1) + (if n % 100 == 0 then [s.(processedRows := n)] else [])
  }

  lemma {:induction false} CheckpointsShape(s: Snapshot, n: nat)
    ensures |Checkpoints(s, n)| == n / 100
    ensures forall k :: 0 <= k < n / 100 ==> Checkpoints(s, n)[k] == s.(processedRows := 100 * (k + 1))
  {
    if n > 0 {
      CheckpointsShape(s, n - 1);
    }
  }

  /** What a successful parse of `n` rows writes, in order. */
  function ParsedSaves(before: Snapshot, n: nat): seq<Snapshot> {
    var processing := before.(status := Processing);
    [processing] + LoadSaves(processing, n)
  }

  /** What storing `n` rows writes, once the record is processing: the row total, the
      checkpoints, and the completed state. */
  function LoadSaves(processing: Snapshot, n: nat): seq<Snapshot> {
    var counted := processing.(totalRows := n);
    [counted] + Checkpoints(counted, n) + [counted.(status := Completed, processedRows := n)]
  }

  /** What a parse whose read fails writes, in order. */
  function FailedSaves(before: Snapshot, message: string): seq<Snapshot> {
    [before.(status := Processing), before.(status := Failed, errorMessage := Some(message))]
  }

  /**
   * A successful parse is seen as processing until its last write, which is completed with
   * both counters at `n`; the counter only grows, in steps of a hundred, when it starts no
   * higher than its first checkpoint.
   */
  lemma ParsedSavesProgress(before: Snapshot, n: nat)
    requires 0 <= before.processedRows <= (if n < 100 then n else 100)
    ensures var ss := ParsedSaves(before, n);
            ss[0].status == Processing && ss[|ss| - 1] == Snapshot(Completed, n, n, before.errorMessage)
            && (forall i :: 0 <= i < |ss| - 1 ==> ss[i].status == Processing)
            && (forall i, j :: 0 <= i < j < |ss| ==> ss[i].processedRows <= ss[j].processedRows)
            && |ss| == n / 100 + 3
  {
    var counted := before.(status := Processing, totalRows := n);
    var cs := Checkpoints(counted, n);
    CheckpointsShape(counted, n);
    var ss := ParsedSaves(before, n);
    assert ss == [before.(status := Processing)] + ([counted] + cs + [counted.(status := Completed, processedRows := n)]);
    forall i | 0 <= i < |ss|
      ensures ss[i].processedRows == if i < 2 then before.processedRows else if i < |ss| - 1 then 100 * (i - 1) else n
      ensures i < |ss| - 1 ==> ss[i].status == Processing
    {
      if 2 <= i < |ss| - 1 {
        assert ss[i] == cs[i - 2];
      }
    }
  }

  /** The record's state after a successful parse of `n` rows. */
  function ParsedState(before: Snapshot, n: nat): Snapshot {
    Snapshot(Completed, n, n, before.errorMessage)
  }

  /**
   * `parse_excel_file`. On a failed read the record ends failed with the error text, which
   * is re-raised; otherwise every column has a mapping, every data row is stored once with
   * its number (its position plus two, after the header line) and its JSON object, and the
   * record ends completed with both counters at the number of data rows. Row ids come from
   * the database: `firstRowId` and on.
   */
  method ParseExcelFile(f: ExcelFile, openpyxl: Result<Sheet>, xlrd: Result<Sheet>, firstRowId: nat) returns (r: Result<()>)
    modifies f
    ensures var read := if openpyxl.Success? then openpyxl else xlrd;
            read.Failure? ==>
              r == Failure(read.error)
              && f.Current() == old(f.Current()).(status := Failed, errorMessage := Some(read.error))
              && f.saves == old(f.saves) + FailedSaves(old(f.Current()), read.error)
              && f.mappings == old(f.mappings) && f.rows == old(f.rows)
    ensures var read := if openpyxl.Success? then openpyxl else xlrd;
            read.Success? ==>
              var sheet := read.value;
              var n := |sheet.rows|;
              var o := |old(f.rows)|;
              r == Success(())
              && f.Current() == ParsedState(old(f.Current()), n)
              && f.saves == old(f.saves) + ParsedSaves(old(f.Current()), n)
              && f.mappings == MappingsAfter(old(f.mappings), sheet.columns)
              && |f.rows| == o + n && f.rows[..o] == old(f.rows)
              && RowsStored(f.rows[o..], sheet, firstRowId)
              && forall k :: o <= k < |f.rows| ==> fresh(f.rows[k])
    ensures f.fileName == old(f.fileName)
  {
    f.status := Processing;
    f.Save();
    var read := openpyxl;
    if read.Failure? {
      read := xlrd;
    }
    if read.Failure? {
      f.status := Failed;
      f.errorMessage := Some(read.error);
      f.Save();
      return Failure(read.error);
    }
    LoadSheet(f, read.value, firstRowId);
    return Success(());
  }

  /** The rows stored for a sheet: consecutive ids, numbers from 2, and each row's data. */
  predicate RowsStored(rows: seq<ExcelRow>, sheet: Sheet, firstRowId: nat) {
    |rows| == |sheet.rows| && forall k :: 0 <= k < |rows| ==> RowStored(rows[k], k, sheet, firstRowId)
  }

  /** The row created for sheet row `k`: the next id, the sheet's row number and the row's data. */
  predicate RowStored(r: ExcelRow, k: nat, sheet: Sheet, firstRowId: nat)
    requires k < |sheet.rows|
  {
    r.id == firstRowId + k && r.rowNumber == k + 2 && r.data == RowData(sheet.columns, sheet.rows[k])
  }

  /** The part of `parse_excel_file` after a successful read. */
  method LoadSheet(f: ExcelFile, sheet: Sheet, firstRowId: nat)
    modifies f
    ensures var n := |sheet.rows|;
            var o := |old(f.rows)|;
            f.Current() == old(f.Current()).(status := Completed, totalRows := n, processedRows := n)
            && f.saves == old(f.saves) + LoadSaves(old(f.Current()), n)
            && f.mappings == MappingsAfter(old(f.mappings), sheet.columns)
            && |f.rows| == o + n && f.rows[..o] == old(f.rows)
            && RowsStored(f.rows[o..], sheet, firstRowId)
            && forall k :: o <= k < |f.rows| ==> fresh(f.rows[k])
    ensures f.fileName == old(f.fileName)
  {
    ghost var before := f.Current();
    MapColumns(f, sheet.columns);
    var n := |sheet.rows|;
    f.totalRows := n;
    f.Save();
    ghost var counted := f.Current();
    ghost var saved := f.saves;
    assert counted == before.(totalRows := n);
    StoreRows(f, sheet, firstRowId);
    f.processedRows := n;
    f.status := Completed;
    f.Save();
    assert f.Current() == counted.(status := Completed, processedRows := n);
    assert f.saves == old(f.saves) + ([counted] + Checkpoints(counted, n) + [f.Current()]);
  }

  /** The row loop of `parse_excel_file`: stores every row and writes the counter after
      every hundredth. */
  method StoreRows(f: ExcelFile, sheet: Sheet, firstRowId: nat)
    modifies f`rows, f`processedRows, f`saves
    ensures var o := |old(f.rows)|;
            f.saves == old(f.saves) + Checkpoints(old(f.Current()), |sheet.rows|)
            && |f.rows| == o + |sheet.rows| && f.rows[..o] == old(f.rows)
            && RowsStored(f.rows[o..], sheet, firstRowId)
            && forall k :: o <= k < |f.rows| ==> fresh(f.rows[k])
  {
    var n := |sheet.rows|;
    ghost var counted := f.Current();
    ghost var made: seq<ExcelRow> := [];
    var processed := 0;
    for i := 0 to n
      invariant processed == i
      invariant f.saves == old(f.saves) + Checkpoints(counted, i)
      invariant f.rows == old(f.rows) + made && |made| == i
      invariant forall k :: 0 <= k < i ==> fresh(made[k]) && RowStored(made[k], k, sheet, firstRowId)
    {
      ghost var row := StoreRow(f, sheet.columns, sheet.rows[i], firstRowId + i, i + 2);
      assert f.rows == old(f.rows) + (made + [row]);
      made := made + [row];
      processed := processed + 1;
      Checkpoint(f, processed);
      assert counted.(processedRows := processed) == f.Current().(processedRows := processed);
    }
    assert f.rows[|old(f.rows)|..] == made;
  }

  /** `ExcelRow.objects.create(...)` for one sheet row. */
  method StoreRow(f: ExcelFile, columns: seq<string>, cells: seq<Cell>, id: nat, number: int) returns (ghost row: ExcelRow)
    modifies f`rows
    ensures fresh(row) && f.rows == old(f.rows) + [row]
    ensures row.id == id && row.rowNumber == number && row.data == RowData(columns, cells)
  {
    var data := ConvertRow(columns, cells);
    var created := new ExcelRow(id, number, data);
    f.rows := f.rows + [created];
    row := created;
  }

  /** Writes the counter after every hundredth row. */
  method Checkpoint(f: ExcelFile, processed: int)
    modifies f`processedRows, f`saves
    ensures processed % 100 == 0 ==> f.processedRows == processed && f.saves == old(f.saves) + [old(f.Current()).(processedRows := processed)]
    ensures processed % 100 != 0 ==> f.processedRows == old(f.processedRows) && f.saves == old(f.saves)
  {
    if processed % 100 == 0 {
      f.processedRows := processed;
      f.Save();
    }
  }

  // ---------------------------------------------------------------------------
  // upload_excel_file

  /**
   * `upload_excel_file`: a new record named `fileName`, or after the uploaded file when no
   * name is given, waiting to be processed with both counters at zero.
   */
  method UploadExcelFile(uploaded: Upload, fileName: Option<string>) returns (f: ExcelFile)
    ensures fresh(f)
    ensures f.fileName == (if fileName.None? then uploaded.name else fileName.value)
    ensures f.file == uploaded
    ensures f.Current() == Snapshot(Pending, 0, 0, None) && f.saves == [f.Current()]
    ensures f.mappings == [] && f.rows == []
  {
    var name := uploaded.name;
    if fileName.Some? {
      name := fileName.value;
    }
    f := new ExcelFile(name, uploaded);
  }
}
