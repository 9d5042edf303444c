# Bank statement to budget: file processing

This project models the file-processing core of ExpenseManager-BE in Dafny. That core turns an uploaded bank
statement into a spending report. It has three parts:

- **ExcelColumnExtractor** reads one column of the first sheet of an `.xlsx` or
  `.xls` workbook. It ignores the 16 rows of the statement header and skips
  rows without a cell in that column. Each cell's text is trimmed. In the
  amount column the text is re-read as an Indian-locale number and written back
  with `String.valueOf`. A blank cell becomes `0.0`, and a cell that does not
  parse becomes the marker text `Number format exception`. Narrations come from
  column 1 and amounts from column 3.
- **NotesExtractor** turns each narration into a spending category. A UPI
  narration `UPI/<f1>/<f2>/<f3>/<f4>...` gives its trimmed fourth field `f4`.
  Any other narration gives `Unknown`.
- **FileProcessingService** pairs notes with amounts up to the shorter list and
  then does the following:
  - It writes one detail row per pair. An amount that parses after stripping
    every character except digits, `.` and `-` is a number and counts towards
    the total. Any other amount keeps its text and counts for nothing.
  - It sums the parsed amounts per category in a hash map.
  - It sorts the categories by amount, largest first.
  - It builds the pie chart. A category gets its own slice while its amount is
    at least 2% of the total and fewer than ten categories came before it. All
    other amounts go into `Other`, which appears only if their sum is positive.

Modules, one per source file, plus shared helpers:

| module | models |
|---|---|
| `Wrappers` | `Option` and `Result` |
| `JavaText` | `String.trim`, `isBlank`, `endsWith` |
| `AmountParsing` | `replaceAll("[^0-9.-]", "")` and `Double.parseDouble` on the cleaned text |
| `EntryLists` | map entries as sequences: `LinkedHashMap.put`, and sorting by amount |
| `ExcelColumnExtractor` | `ExcelColumnExtractor.java` |
| `NotesExtractor` | `NotesExtractor.java` |
| `FileProcessingService` | `FileProcessingService.java` |

Loops in the source become methods with loop invariants. Most of these
methods are proved against a recursive function that describes the state after
the first `n` iterations: `Labels`, `DetailRows`, `Consolidation`, and
`Kept`/`OtherTotal`/`PutAll`. The column reader's loop is proved against
`ValuesOfRows`, a predicate over the recursive `CellRows`. `EntryList`'s loop,
which copies the hash map into a list, is proved directly against its
postcondition: every key once, with its value.

Modelling choices:

- Amounts are exact reals.
- A worksheet is the sequence of its iterated rows, and each row maps column
  indices to the text of its cells.
- The locale number parser and `String.valueOf(double)` are parameters.

## Model

| member | source | states |
|---|---|---|
| ExcelColumnExtractor.GetWorkbook | src/main/java/com/divakar/bankToBudget/fileProcessing/extractors/ExcelColumnExtractor.java:26-30 | `.xlsx` names select the XSSF reader and `.xls` names the HSSF reader. Every other name is exactly the error "unsupported file type" carrying that name. Each case holds in both directions. |
| ExcelColumnExtractor.CellRows | src/main/java/com/divakar/bankToBudget/fileProcessing/extractors/ExcelColumnExtractor.java:39-44 | Each row that yields a value lies past the 16 header rows and has a cell in the column. Rows are listed in strictly increasing order. |
| ExcelColumnExtractor.CellRowsComplete | src/main/java/com/divakar/bankToBudget/fileProcessing/extractors/ExcelColumnExtractor.java:39-44 | Every row past the header with a cell in the column does yield a value, so no such row is dropped. |
| ExcelColumnExtractor.CellRowsCount | src/main/java/com/divakar/bankToBudget/fileProcessing/extractors/ExcelColumnExtractor.java:39-44 | The number of values equals the number of rows past the header that have a cell in the column. |
| ExcelColumnExtractor.HeaderRowsIgnored | src/main/java/com/divakar/bankToBudget/fileProcessing/extractors/ExcelColumnExtractor.java:37-41 | Two sheets that differ only within the first 16 rows yield the same rows. |
| ExcelColumnExtractor.ValuesOfRowsStep | src/main/java/com/divakar/bankToBudget/fileProcessing/extractors/ExcelColumnExtractor.java:39-58 | One more iterated row adds its cell's value when it has one. Otherwise it adds nothing. |
| ExcelColumnExtractor.ExtractColumnValues | src/main/java/com/divakar/bankToBudget/fileProcessing/extractors/ExcelColumnExtractor.java:32-63 | A rejected file name gives the unsupported-file-type error. Otherwise the result is exactly the cell values of the contributing rows, in row order. |
| ExcelColumnExtractor.ExtractTransactions | src/main/java/com/divakar/bankToBudget/fileProcessing/extractors/ExcelColumnExtractor.java:18-20 | Succeeds exactly when the file name is accepted. Yields, for each contributing row of column 1, its trimmed text, which has no outer whitespace. |
| ExcelColumnExtractor.ExtractAmounts | src/main/java/com/divakar/bankToBudget/fileProcessing/extractors/ExcelColumnExtractor.java:22-24 | Succeeds exactly when the file name is accepted. Column 3 is read, and each entry is the cell value of its contributing row. A blank cell gives `show(0)`, a cell the locale parser rejects gives the marker text, and any other cell gives `show` of its parsed value. |
| NotesExtractor.Match | src/main/java/com/divakar/bankToBudget/fileProcessing/extractors/NotesExtractor.java:12 | A match captures a non-empty field with no `/`. |
| NotesExtractor.Classify | src/main/java/com/divakar/bankToBudget/fileProcessing/extractors/NotesExtractor.java:16-21 | A narration without a match is labelled `Unknown`. A matched label has no `/` and is trimmed. |
| NotesExtractor.MatchComplete | src/main/java/com/divakar/bankToBudget/fileProcessing/extractors/NotesExtractor.java:12 | Every narration `UPI/a/b/c/g` followed by nothing or by `/...`, with non-empty slash-free fields, matches and captures `g`. |
| NotesExtractor.MatchSound | src/main/java/com/divakar/bankToBudget/fileProcessing/extractors/NotesExtractor.java:12 | Every match comes from such a narration: the transaction splits into `UPI/`, three fields, the capture and a tail that is empty or starts with `/`. |
| NotesExtractor.MatchFieldsSound | src/main/java/com/divakar/bankToBudget/fileProcessing/extractors/NotesExtractor.java:12 | After `UPI/`, an accepted rest splits into three fields, the captured fourth and a tail that is empty or starts with `/`. |
| NotesExtractor.UpiNarrationNested | src/main/java/com/divakar/bankToBudget/fileProcessing/extractors/NotesExtractor.java:12 | A UPI narration is `UPI/` followed by the fields, each nested after its separator. |
| NotesExtractor.LabelAt | src/main/java/com/divakar/bankToBudget/fileProcessing/extractors/NotesExtractor.java:15-23 | After `n` passes of the loop, entry `k` is the label of transaction `k`. |
| NotesExtractor.GetNotesFromTransactions | src/main/java/com/divakar/bankToBudget/fileProcessing/extractors/NotesExtractor.java:10-25 | One note per transaction, in the same order. Each note is that transaction's label. |
| NotesExtractor.ClassifyUpiExample | src/main/java/com/divakar/bankToBudget/fileProcessing/extractors/NotesExtractor.java:17-19 | `UPI/123456/John Doe/ICIC/Coffee Shop/ref1` is labelled `Coffee Shop`. |
| NotesExtractor.ClassifyFallbackExamples | src/main/java/com/divakar/bankToBudget/fileProcessing/extractors/NotesExtractor.java:20-21 | A NEFT narration, and a UPI narration with an empty field, are labelled `Unknown`. |
| JavaText.Trim | src/main/java/com/divakar/bankToBudget/fileProcessing/extractors/ExcelColumnExtractor.java:46 | The result is a slice of the input. It has no leading or trailing code unit at or below U+0020, and only such code units were cut. |
| JavaText.TrimIdempotent | src/main/java/com/divakar/bankToBudget/fileProcessing/extractors/ExcelColumnExtractor.java:46 | Trimming twice gives the same as trimming once. |
| AmountParsing.CleanLeavesAmountChars | src/main/java/com/divakar/bankToBudget/fileProcessing/service/FileProcessingService.java:86 | Cleaning never lengthens a string and leaves only digits, `.` and `-`. |
| AmountParsing.CleanKeepsExactly | src/main/java/com/divakar/bankToBudget/fileProcessing/service/FileProcessingService.java:86 | Cleaning keeps every digit, `.` and `-` as often as it occurs and removes every other character. |
| AmountParsing.CleanIsSubsequence | src/main/java/com/divakar/bankToBudget/fileProcessing/service/FileProcessingService.java:86 | The cleaned text keeps the original order. |
| AmountParsing.CleanConcat | src/main/java/com/divakar/bankToBudget/fileProcessing/service/FileProcessingService.java:86 | Cleaning works character by character: cleaning a concatenation concatenates the cleaned parts. |
| AmountParsing.CleanKeepsAmountText | src/main/java/com/divakar/bankToBudget/fileProcessing/service/FileProcessingService.java:86 | Text made only of digits, `.` and `-` is left as it is. |
| AmountParsing.CleanDropsText | src/main/java/com/divakar/bankToBudget/fileProcessing/service/FileProcessingService.java:86 | Text without digits, `.` or `-` cleans to nothing. |
| AmountParsing.CleanIdempotent | src/main/java/com/divakar/bankToBudget/fileProcessing/service/FileProcessingService.java:86 | Cleaning twice gives the same as cleaning once. |
| AmountParsing.ParseDecimalOfLiteral | src/main/java/com/divakar/bankToBudget/fileProcessing/service/FileProcessingService.java:87 | Every literal made of an optional `-`, digits, and an optional `.` with digits, containing at least one digit, parses to the value it denotes. |
| AmountParsing.ParseDecimalSound | src/main/java/com/divakar/bankToBudget/fileProcessing/service/FileProcessingService.java:87 | Every accepted text is such a literal, and its value is what it denotes. |
| AmountParsing.ParseDecimalRejectsEmpty | src/main/java/com/divakar/bankToBudget/fileProcessing/service/FileProcessingService.java:87 | Empty text is rejected. |
| EntryLists.Put | src/main/java/com/divakar/bankToBudget/fileProcessing/service/FileProcessingService.java:155 | A new key is appended at the end. An existing key keeps its place with the new value, and every other entry is unchanged. Keys stay distinct. |
| EntryLists.Insert | src/main/java/com/divakar/bankToBudget/fileProcessing/service/FileProcessingService.java:145 | Inserting into a list sorted largest first keeps it sorted. It adds exactly the one entry, so the multiset, the keys and the sum change only by that entry. |
| EntryLists.SortDescending | src/main/java/com/divakar/bankToBudget/fileProcessing/service/FileProcessingService.java:145 | The result is sorted largest amount first and is a permutation of the input. It has the same keys, which stay distinct, and the same sum. |
| EntryLists.SumAppend | src/main/java/com/divakar/bankToBudget/fileProcessing/service/FileProcessingService.java:89 | The sum of a concatenation is the sum of the two parts. |
| FileProcessingService.Min | src/main/java/com/divakar/bankToBudget/fileProcessing/service/FileProcessingService.java:76 | `Math.min`: the result is one of the two arguments and is no larger than either. |
| FileProcessingService.SentinelExcluded | src/main/java/com/divakar/bankToBudget/fileProcessing/service/FileProcessingService.java:86-91 | The marker `Number format exception` cleans to nothing and never parses, so it stays text and adds nothing to the total. |
| FileProcessingService.PlainAmountRoundTrip | src/main/java/com/divakar/bankToBudget/fileProcessing/service/FileProcessingService.java:86-87 | An amount written in plain decimal notation survives cleaning and parses to exactly its value. |
| FileProcessingService.ScientificAmountMisread | src/main/java/com/divakar/bankToBudget/fileProcessing/extractors/ExcelColumnExtractor.java:51 | `"1.0E7"`, which `String.valueOf` writes for ten million, cleans to `"1.07"` and is read as 1.07. |
| FileProcessingService.DetailRowAt | src/main/java/com/divakar/bankToBudget/fileProcessing/service/FileProcessingService.java:80-93 | After `n` passes, detail row `k` is the row for note `k` and amount `k`. |
| FileProcessingService.DetailRowsTotal | src/main/java/com/divakar/bankToBudget/fileProcessing/service/FileProcessingService.java:80-93 | The numbers in the detail rows add up to the sum of the amounts that parse. |
| FileProcessingService.FillDetail | src/main/java/com/divakar/bankToBudget/fileProcessing/service/FileProcessingService.java:76-93 | There is one row per pair up to the shorter list. An amount that parses becomes a number and any other keeps its text. The total is the sum of the numeric cells, which is the sum of the amounts that parse. |
| FileProcessingService.ParsedCategories | src/main/java/com/divakar/bankToBudget/fileProcessing/service/FileProcessingService.java:120-129 | The categories that reach the consolidation are exactly the notes of rows whose amount parses. |
| FileProcessingService.ConsolidateStep | src/main/java/com/divakar/bankToBudget/fileProcessing/service/FileProcessingService.java:132-136 | Adding an entry to its category's sum, or starting a new sum, keeps the map exactly the per-category totals of the entries seen so far. |
| FileProcessingService.ConsolidationTotals | src/main/java/com/divakar/bankToBudget/fileProcessing/service/FileProcessingService.java:120-137 | After `n` rows, the map's keys are the categories of the parsed entries, and each maps to its category's total. |
| FileProcessingService.ConsolidateRows | src/main/java/com/divakar/bankToBudget/fileProcessing/service/FileProcessingService.java:119-137 | The map holds exactly the notes of rows whose amount parses, each with the sum of its parsed amounts. |
| FileProcessingService.EntryList | src/main/java/com/divakar/bankToBudget/fileProcessing/service/FileProcessingService.java:144 | The list has each key of the map exactly once, with its value, in an order the map does not fix. |
| FileProcessingService.EnumerationSum | src/main/java/com/divakar/bankToBudget/fileProcessing/service/FileProcessingService.java:144 | A list of distinct categories with their totals sums to the total of all entries. |
| FileProcessingService.EnumeratesPermutation | src/main/java/com/divakar/bankToBudget/fileProcessing/service/FileProcessingService.java:145 | Reordering such a list leaves each category paired with its total. |
| FileProcessingService.Kept | src/main/java/com/divakar/bankToBudget/fileProcessing/service/FileProcessingService.java:148-165 | At most ten categories get their own slice, and never more than there are categories. |
| FileProcessingService.KeptFacts | src/main/java/com/divakar/bankToBudget/fileProcessing/service/FileProcessingService.java:154 | Every kept entry is an input entry whose amount reaches the threshold. Kept categories are input categories and stay distinct. |
| FileProcessingService.KeptPrefix | src/main/java/com/divakar/bankToBudget/fileProcessing/service/FileProcessingService.java:148-165 | On a list sorted largest first, the kept entries are the first `min(10, number at or above threshold)` entries, and `Other` is the sum of the rest. |
| FileProcessingService.KeptAndOtherSum | src/main/java/com/divakar/bankToBudget/fileProcessing/service/FileProcessingService.java:154-158 | The kept amounts plus `otherTotal` add up to the sum of all categories. |
| FileProcessingService.CountAllAtLeast | src/main/java/com/divakar/bankToBudget/fileProcessing/service/FileProcessingService.java:154 | When every amount reaches the threshold, every entry counts as reaching it. |
| FileProcessingService.ChartStep | src/main/java/com/divakar/bankToBudget/fileProcessing/service/FileProcessingService.java:154-158 | One pass of the loop: a kept entry is put into the chart and leaves `otherTotal` unchanged. Any other entry leaves the chart unchanged and is added to `otherTotal`. |
| FileProcessingService.CollapseChart | src/main/java/com/divakar/bankToBudget/fileProcessing/service/FileProcessingService.java:148-170 | The consolidated rows are the sorted entries in order. The chart is exactly the kept entries, then `Other` if `otherTotal` is positive. |
| FileProcessingService.Chart | src/main/java/com/divakar/bankToBudget/fileProcessing/service/FileProcessingService.java:167-170 | At most eleven slices. `Other` is a slice exactly when `otherTotal` is positive or `Other` is itself a kept category. Every slice is an input category or `Other`. |
| FileProcessingService.PutAllDistinct | src/main/java/com/divakar/bankToBudget/fileProcessing/service/FileProcessingService.java:155 | Putting distinct keys one after another into an empty linked map keeps them all, in order. |
| FileProcessingService.ChartShape | src/main/java/com/divakar/bankToBudget/fileProcessing/service/FileProcessingService.java:148-170 | With distinct categories: no `Other` slice when `otherTotal <= 0`. Otherwise `Other` is appended, or replaces the value of a kept category named `Other` in place. |
| FileProcessingService.ChartSum | src/main/java/com/divakar/bankToBudget/fileProcessing/service/FileProcessingService.java:148-170 | When `otherTotal` is not negative and no kept category is called `Other`, the slices add up to the total of all categories. |
| FileProcessingService.WriteNotesAndAmounts | src/main/java/com/divakar/bankToBudget/fileProcessing/service/FileProcessingService.java:55-170 | The result is a report for the notes and amounts (`IsReport`). Its detail rows are as for `FillDetail`, and its total is the sum of the amounts that parse. The consolidated list pairs each parsed category with its total, is sorted largest first, and sums to the total. The chart is the collapse of that list at 2% of the total and has at most eleven slices. |
| FileProcessingService.RejectedAmountStaysText | src/main/java/com/divakar/bankToBudget/fileProcessing/service/FileProcessingService.java:85-92 | In any report, a row whose amount is the reader's failure marker keeps that marker as text. |
| FileProcessingService.ProcessExcelFile | src/main/java/com/divakar/bankToBudget/fileProcessing/service/FileProcessingService.java:42-53 | Succeeds exactly when the file name is accepted, and otherwise returns the unsupported-file-type error. On success the result is a report (`IsReport`, with everything `WriteNotesAndAmounts` states) for two inputs. The notes are the label of the trimmed text of each contributing row of column 1. The amounts are the cell value (`show(0)`, `show` of the parsed number, or the marker) of each contributing row of column 3. An amount cell the locale parser rejects stays as the marker text in the detail table. |

## Left out

- Reading and writing workbooks, which is I/O:
  - Apache POI I/O is not modelled: opening the stream and creating the sheets, the header rows and styles (`FileProcessingService.java` lines 56-74 and 100-117), column sizing (95-97, 181-184, 209-212), the percentage number format (172-179), the chart sheet's header row (186-197), and the pie chart drawing and file output (214-318). The model stops at the values these sheets are filled with.
  - The temporary output file and the returned path (lines 48-52), and the controller, are not modelled.
- Logging (`System.out.println`) is left out.
- Percentage cells (`amount / totalAmount`, lines 164 and 205) are not modelled. They are floating-point divisions that are NaN or infinite when the total is 0.
- Floating point is not modelled:
  - Amounts are exact reals, so IEEE rounding of the sum and of `totalAmount * 0.02` is absent.
  - The comparator `Double.compareTo` is taken as the order on reals, so its treatment of `-0.0` and NaN is not modelled.
  - Parsed text never holds an exponent after cleaning, so `Double.parseDouble` reduces to decimal literals.
- The `en-IN` `NumberFormat` parser and `String.valueOf(double)` are parameters (`localeParse`, `show`); their behaviour is not modelled.
- `HashMap` iteration order is arbitrary: `EntryList` picks each next key nondeterministically.
- The `int` counters (`rowIndex`, `chartRowIndex`, `rowIdx`) cannot overflow in the model; sheets that large are outside its scope.
- SortDescending: models `List.sort` as a function on values. It does not model the in-place update of the `ArrayList`.
- SortDescending: promises nothing about the order of equal amounts. Java's merge sort would keep the hash-map order for ties, and that order is itself unspecified.
- Behaviour of the code that the model keeps as it is:
  - A row with no cell in the column yields no entry (`ExcelColumnExtractor.java` lines 43-44). Narrations and amounts are read separately, so the two lists can fall out of step when one column has a gap the other lacks; pairing is by position in each list.
  - ChartSum: the chart adds up to the total only when `otherTotal` is not negative and no category is itself called `Other`. A kept `Other` category is overwritten by the `Other` slice, and a negative `otherTotal` (refunds) is dropped.

## Findings

| source | as written | input that shows it | evidently intended | confidence | as-written member | corrected member |
|---|---|---|---|---|---|---|
| src/main/java/com/divakar/bankToBudget/fileProcessing/extractors/ExcelColumnExtractor.java:51 | the amount is written back with `String.valueOf(double)`, which uses scientific notation from 10^7 up; the service's cleaning (`FileProcessingService.java:86-87`) drops the `E` and reads `"1.0E7"` as 1.07 | an amount cell of 1,00,00,000.00 (ten million rupees) | amounts are written in plain decimal notation, which survives cleaning and parses to the same value | not executed | FileProcessingService.ScientificAmountMisread | FileProcessingService.PlainAmountRoundTrip |
