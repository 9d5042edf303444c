/**
 * The column reader of `ExcelColumnExtractor`: it picks the container
 * format from the file name, then walks the rows of the first sheet,
 * skipping the statement preamble and the rows without a cell in the
 * requested column, and emits one text value per remaining row.
 *
 * A sheet is the sequence of rows the sheet iterator yields; a row maps a
 * column index to the text of its cell (`Cell.toString()`), and a column
 * missing from the map is a null cell.
 */
module ExcelColumnExtractor {
  import opened Wrappers
  import opened JavaText

  /** The two container formats: OOXML (XSSF) and the legacy binary format (HSSF). */
  datatype WorkbookFormat = Xssf | Hssf

  datatype ExtractError = UnsupportedFileType(filename: string)

  type Row = map<nat, string>
  type Sheet = seq<Row>

  /** Iterated rows that never contribute: the counter is bumped before the `< 17` test. */
  const HeaderRows: nat := 16
  const NarrationColumn: nat := 1
  const AmountColumn: nat := 3
  const NumberFormatSentinel: string := "Number format exception"

  /** `getWorkbook`: the format named by the file-name suffix, or an error. */
  function GetWorkbook(filename: string): (r: Result<WorkbookFormat, ExtractError>)
    ensures r == Ok(Xssf) <==> EndsWith(filename, ".xlsx")
    ensures r == Ok(Hssf) <==> EndsWith(filename, ".xls")
    ensures r.Err? <==> !EndsWith(filename, ".xlsx") && !EndsWith(filename, ".xls")
    ensures r.Err? ==> r.error == UnsupportedFileType(filename)
  {
    if EndsWith(filename, ".xlsx") then
      assert filename[|filename| - 1] == 'x';
      Ok(Xssf)
    else if EndsWith(filename, ".xls") then
      assert filename[|filename| - 1] == 's';
      Ok(Hssf)
    else Err(UnsupportedFileType(filename))
  }

  /**
   * The text emitted for one cell. Narrations are the trimmed cell text;
   * amounts go through the locale parser `localeParse` (en-IN grouping)
   * and are written back with `show` (`String.valueOf(double)`), a blank
   * cell counting as 0 and a parse failure giving the sentinel.
   */
  function CellValue(text: string, parseAsDouble: bool,
                     localeParse: string -> Option<real>, show: real -> string): string
  {
    var v := Trim(text);
    if !parseAsDouble then v
    else if IsBlank(v) then show(0.0)
    else
      match localeParse(v)
      case Some(x) => show(x)
      case None => NumberFormatSentinel
  }

  /** Whether the `i`-th iterated row contributes a value for column `col`. */
  predicate Contributes(sheet: Sheet, col: nat, i: nat) {
    HeaderRows <= i < |sheet| && col in sheet[i]
  }

  /**
   * The positions, among the first `n` iterated rows, of the rows that
   * contribute a value, in increasing order.
   */
  function CellRows(sheet: Sheet, col: nat, n: nat): (rows: seq<nat>)
    requires n <= |sheet|
    ensures forall k :: 0 <= k < |rows| ==> rows[k] < n && Contributes(sheet, col, rows[k])
    ensures forall k, l :: 0 <= k < l < |rows| ==> rows[k] < rows[l]
  {
    if n == 0 then []
    else
      var earlier := CellRows(sheet, col, n - 1);
      if Contributes(sheet, col, n - 1) then earlier + [n - 1] else earlier
  }

  /** No contributing row is missed. */
  lemma {:induction false} CellRowsComplete(sheet: Sheet, col: nat, n: nat)
    requires n <= |sheet|
    ensures forall i: nat :: i < n && Contributes(sheet, col, i) ==> i in CellRows(sheet, col, n)
  {
    if n > 0 {
      CellRowsComplete(sheet, col, n - 1);
      var earlier := CellRows(sheet, col, n - 1);
      assert CellRows(sheet, col, n) == if Contributes(sheet, col, n - 1) then earlier + [n - 1] else earlier;
    }
  }

  /** The set of contributing positions among the first `n`, defined directly. */
  function ContributingRows(sheet: Sheet, col: nat, n: nat): set<nat>
    requires n <= |sheet|
  {
    set i: nat | i < n && Contributes(sheet, col, i)
  }

  /** One value per contributing row: the count is that of the contributing rows. */
  lemma {:induction false} CellRowsCount(sheet: Sheet, col: nat, n: nat)
    requires n <= |sheet|
    ensures |CellRows(sheet, col, n)| == |ContributingRows(sheet, col, n)|
  {
    if n == 0 {
      assert ContributingRows(sheet, col, n) == {};
    } else {
      CellRowsCount(sheet, col, n - 1);
      var before := ContributingRows(sheet, col, n - 1);
      var earlier := CellRows(sheet, col, n - 1);
      if Contributes(sheet, col, n - 1) {
        assert CellRows(sheet, col, n) == earlier + [n - 1];
        assert ContributingRows(sheet, col, n) == before + {n - 1} by {
          assert n - 1 !in before;
        }
        assert |before + {n - 1}| == |before| + 1 by {
          assert n - 1 !in before;
        }
      } else {
        assert CellRows(sheet, col, n) == earlier;
        assert ContributingRows(sheet, col, n) == before;
      }
    }
  }

  /**
   * The preamble never contributes: two sheets that differ only in their
   * first `HeaderRows` rows yield the same positions.
   */
  lemma {:induction false} HeaderRowsIgnored(s1: Sheet, s2: Sheet, col: nat, n: nat)
    requires n <= |s1| && n <= |s2|
    requires forall i :: HeaderRows <= i < n ==> s1[i] == s2[i]
    ensures CellRows(s1, col, n) == CellRows(s2, col, n)
  {
    if n > 0 {
      HeaderRowsIgnored(s1, s2, col, n - 1);
      assert Contributes(s1, col, n - 1) == Contributes(s2, col, n - 1);
    }
  }

  /** The values of the first `n` iterated rows, as the loop accumulates them. */
  predicate ValuesOfRows(values: seq<string>, sheet: Sheet, col: nat, n: nat, parseAsDouble: bool,
                         localeParse: string -> Option<real>, show: real -> string)
    requires n <= |sheet|
  {
    var rows := CellRows(sheet, col, n);
    |values| == |rows|
    && forall k :: 0 <= k < |rows| ==>
         values[k] == CellValue(sheet[rows[k]][col], parseAsDouble, localeParse, show)
  }

  /** One more iterated row adds the value of its cell when it contributes, and nothing otherwise. */
  lemma ValuesOfRowsStep(values: seq<string>, sheet: Sheet, col: nat, i: nat, parseAsDouble: bool,
                         localeParse: string -> Option<real>, show: real -> string)
    requires i < |sheet| && ValuesOfRows(values, sheet, col, i, parseAsDouble, localeParse, show)
    ensures !Contributes(sheet, col, i) ==> ValuesOfRows(values, sheet, col, i + 1, parseAsDouble, localeParse, show)
    ensures Contributes(sheet, col, i) ==>
      ValuesOfRows(values + [CellValue(sheet[i][col], parseAsDouble, localeParse, show)],
                   sheet, col, i + 1, parseAsDouble, localeParse, show)
  {
  }

  /**
   * `extractColumnValues`: an unsupported file name is an error; otherwise
   * the values of the contributing rows, in row order.
   */
  method ExtractColumnValues(sheet: Sheet, filename: string, columnIndex: nat, parseAsDouble: bool,
                             localeParse: string -> Option<real>, show: real -> string)
    returns (r: Result<seq<string>, ExtractError>)
    ensures GetWorkbook(filename).Err? ==> r == Err(UnsupportedFileType(filename))
    ensures GetWorkbook(filename).Ok? ==>
      r.Ok? && ValuesOfRows(r.value, sheet, columnIndex, |sheet|, parseAsDouble, localeParse, show)
  {
    var workbook := GetWorkbook(filename);
    if workbook.Err? {
      return Err(workbook.error);
    }
    var values: seq<string> := [];
    var rowIndex := 0;
    for i := 0 to |sheet|
      invariant rowIndex == i
      invariant ValuesOfRows(values, sheet, columnIndex, i, parseAsDouble, localeParse, show)
    {
      var row := sheet[i];
      ValuesOfRowsStep(values, sheet, columnIndex, i, parseAsDouble, localeParse, show);
      rowIndex := rowIndex + 1;
      if rowIndex < HeaderRows + 1 {
        continue;
      }
      if columnIndex !in row {
        continue;
      }
      var cellValue := Trim(row[columnIndex]);
      var text: string;
      if parseAsDouble {
        if IsBlank(cellValue) {
          text := show(0.0);
        } else {
          match localeParse(cellValue) {
            case Some(amount) =>
              text := show(amount);
            case None =>
              text := NumberFormatSentinel;
          }
        }
      } else {
        text := cellValue;
      }
      values := values + [text];
    }
    r := Ok(values);
  }

  /** `extractTransactions`: the narration column, each entry the trimmed cell text. */
  method ExtractTransactions(sheet: Sheet, filename: string)
    returns (r: Result<seq<string>, ExtractError>)
    ensures r.Ok? <==> GetWorkbook(filename).Ok?
    ensures r.Err? ==> r.error == UnsupportedFileType(filename)
    ensures r.Ok? ==>
      var rows := CellRows(sheet, NarrationColumn, |sheet|);
      |r.value| == |rows|
      && forall k :: 0 <= k < |rows| ==>
           r.value[k] == Trim(sheet[rows[k]][NarrationColumn]) && IsTrimmed(r.value[k])
  {
    // With parseAsDouble false, neither number conversion is consulted.
    r := ExtractColumnValues(sheet, filename, NarrationColumn, false, _ => None, _ => "");
  }

  /**
   * `extractAmounts`: the amount column; a blank cell gives the text of 0,
   * a cell the locale parser rejects gives exactly the sentinel, and no
   * contributing row is dropped.
   */
  method ExtractAmounts(sheet: Sheet, filename: string,
                        localeParse: string -> Option<real>, show: real -> string)
    returns (r: Result<seq<string>, ExtractError>)
    ensures r.Ok? <==> GetWorkbook(filename).Ok?
    ensures r.Err? ==> r.error == UnsupportedFileType(filename)
    ensures r.Ok? ==>
      var rows := CellRows(sheet, AmountColumn, |sheet|);
      |r.value| == |rows|
      && forall k :: 0 <= k < |rows| ==>
           var v := Trim(sheet[rows[k]][AmountColumn]);
           r.value[k] == CellValue(sheet[rows[k]][AmountColumn], true, localeParse, show)
           && (IsBlank(v) ==> r.value[k] == show(0.0))
           && (!IsBlank(v) && localeParse(v).None? ==> r.value[k] == NumberFormatSentinel)
           && (!IsBlank(v) && localeParse(v).Some? ==> r.value[k] == show(localeParse(v).value))
  {
    r := ExtractColumnValues(sheet, filename, AmountColumn, true, localeParse, show);
  }
}
