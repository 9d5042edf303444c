/**
 * The computational part of `writeNotesAndAmountsToExcel` and the wiring of
 * `processExcelFile`: the detail table and its total, the per-category
 * consolidation, the descending order and the chart that keeps at most ten
 * categories of at least 2% of the total and gathers the rest in "Other".
 * The workbook, its styles, the pie chart and the file write are not
 * modelled; what the report would contain is returned as a value.
 */
module FileProcessingService {
  import opened Wrappers
  import opened JavaText
  import opened AmountParsing
  import opened EntryLists
  import opened ExcelColumnExtractor
  import opened NotesExtractor

  /** A category is kept for the chart from 2% of the total upwards. */
  function ChartThreshold(total: real): real {
    total * 0.02
  }
  /** `chartRowIndex <= 10`: at most ten named slices. */
  const MaxSlices: nat := 10
  const OtherLabel: string := "Other"

  /** The amount cell of a detail row: a number, or the raw text when it does not parse. */
  datatype AmountCell = Number(value: real) | Text(raw: string)

  datatype DetailRow = DetailRow(category: string, amount: AmountCell)

  /**
   * What the output workbook holds, percentages aside: the detail sheet,
   * the total, the consolidated sheet and the chart slices, in order.
   */
  datatype Report = Report(detail: seq<DetailRow>, total: real, consolidated: seq<Entry>, chart: seq<Entry>)

  /** `Math.min`. */
  function Min(a: int, b: int): (r: int)
    ensures r <= a && r <= b && (r == a || r == b)
  {
    if a < b then a else b
  }

  /** `Double.parseDouble(amount.replaceAll("[^0-9.-]", ""))`; `None` where Java throws. */
  function ParseAmount(raw: string): Option<real> {
    ParseDecimal(Clean(raw))
  }

  /** The sentinel of the column reader has no digit, '.' or '-': it never parses. */
  lemma SentinelExcluded()
    ensures Clean(NumberFormatSentinel) == []
    ensures ParseAmount(NumberFormatSentinel) == None
  {
    var s := NumberFormatSentinel;
    assert forall k :: 0 <= k < |s| ==> s[k] == ' ' || 'a' <= s[k] <= 'z' || s[k] == 'N';
    CleanDropsText(s);
    ParseDecimalRejectsEmpty();
  }

  /**
   * `String.valueOf(double)` writes magnitudes from 10^7 upwards in
   * scientific notation: 10000000.0 becomes "1.0E7". Cleaning drops the
   * 'E' and glues the exponent to the fraction, so the amount is read back
   * as 1.07.
   */
  lemma ScientificAmountMisread()
    ensures Clean("1.0E7") == "1.07"
    ensures ParseAmount("1.0E7") == Some(1.07)
  {
    ScientificClean();
    ReadOnePointZeroSeven();
  }

  /** The cleaned text "1.07" parses as the number 1.07. */
  lemma ReadOnePointZeroSeven()
    ensures ParseDecimal("1.07") == Some(1.07)
  {
    var lit := DecimalLiteral(false, "1", true, "07");
    LiteralOnePointZeroSeven();
    ParseDecimalOfLiteral(lit);
  }

  /** "1.07" is the literal with digit 1, a point and digits 07, worth 1.07. */
  lemma LiteralOnePointZeroSeven()
    ensures DecimalLiteral(false, "1", true, "07").Valid()
    ensures DecimalLiteral(false, "1", true, "07").Text() == "1.07"
    ensures DecimalLiteral(false, "1", true, "07").Value() == 1.07
  {
    var lit := DecimalLiteral(false, "1", true, "07");
    assert lit.Valid();
    assert "07"[1..] == "7" && "7"[1..] == [];
    assert "1"[..0] == [];
  }

  /** Cleaning "1.0E7" keeps "1.0" and the exponent digit. */
  lemma ScientificClean()
    ensures Clean("1.0E7") == "1.07"
  {
    var mantissa, exponent := "1.0", "E7";
    assert mantissa + exponent == "1.0E7";
    CleanConcat(mantissa, exponent);
    CleanKeepsAmountText(mantissa);
    assert exponent[1..] == "7";
    CleanKeepsAmountText("7");
    assert Clean(exponent) == "7";
  }

  /**
   * An amount written in plain decimal notation (an optional '-', digits,
   * at most one '.') survives cleaning and is read back exactly.
   */
  lemma PlainAmountRoundTrip(lit: DecimalLiteral)
    requires lit.Valid()
    ensures ParseAmount(lit.Text()) == Some(lit.Value())
  {
    var t := lit.Text();
    forall k | 0 <= k < |t| ensures IsAmountChar(t[k]) {
      LiteralChar(lit, k);
    }
    CleanKeepsAmountText(t);
    ParseDecimalOfLiteral(lit);
  }

  /** The text of a literal holds only digits, '.' and '-'. */
  lemma LiteralChar(lit: DecimalLiteral, k: nat)
    requires lit.Valid() && k < |lit.Text()|
    ensures IsAmountChar(lit.Text()[k])
  {
    var sign: string := if lit.negative then "-" else "";
    var point: string := if lit.point then "." else "";
    assert lit.Text() == sign + lit.intDigits + point + lit.fracDigits;
  }

  /** The entries of the first `n` rows whose amount parses, in row order. */
  function Parsed(notes: seq<string>, amounts: seq<string>, n: nat): (ps: seq<Entry>)
    requires n <= |notes| && n <= |amounts|
    ensures |ps| <= n
  {
    if n == 0 then []
    else
      Parsed(notes, amounts, n - 1)
      + match ParseAmount(amounts[n - 1])
        case Some(v) => [Entry(notes[n - 1], v)]
        case None => []
  }

  /** One more row adds its entry, if its amount parses. */
  lemma ParsedStep(notes: seq<string>, amounts: seq<string>, n: nat)
    requires 0 < n <= |notes| && n <= |amounts|
    ensures ParseAmount(amounts[n - 1]).None? ==> Parsed(notes, amounts, n) == Parsed(notes, amounts, n - 1)
    ensures ParseAmount(amounts[n - 1]).Some? ==>
      Parsed(notes, amounts, n) == Parsed(notes, amounts, n - 1) + [Entry(notes[n - 1], ParseAmount(amounts[n - 1]).value)]
  {
    assert Parsed(notes, amounts, n - 1) + [] == Parsed(notes, amounts, n - 1);
  }

  /** The notes of the first `n` rows whose amount parses. */
  function ParsedNotes(notes: seq<string>, amounts: seq<string>, n: nat): set<string>
    requires n <= |notes| && n <= |amounts|
  {
    set i | 0 <= i < n && ParseAmount(amounts[i]).Some? :: notes[i]
  }

  /** The categories that reach the consolidation are the notes of the rows that parse. */
  lemma {:induction false} ParsedCategories(notes: seq<string>, amounts: seq<string>, n: nat)
    requires n <= |notes| && n <= |amounts|
    ensures Categories(Parsed(notes, amounts, n)) == ParsedNotes(notes, amounts, n)
  {
    if n == 0 {
      assert ParsedNotes(notes, amounts, n) == {};
    } else {
      ParsedCategories(notes, amounts, n - 1);
      var before := Parsed(notes, amounts, n - 1);
      ParsedNotesStep(notes, amounts, n);
      ParsedStep(notes, amounts, n);
      if ParseAmount(amounts[n - 1]).Some? {
        AppendDistinct(before, Entry(notes[n - 1], ParseAmount(amounts[n - 1]).value));
      }
    }
  }

  lemma ParsedNotesStep(notes: seq<string>, amounts: seq<string>, n: nat)
    requires 0 < n <= |notes| && n <= |amounts|
    ensures ParsedNotes(notes, amounts, n)
         == ParsedNotes(notes, amounts, n - 1)
            + if ParseAmount(amounts[n - 1]).Some? then {notes[n - 1]} else {}
  {
    var now, before := ParsedNotes(notes, amounts, n), ParsedNotes(notes, amounts, n - 1);
    var added: set<string> := if ParseAmount(amounts[n - 1]).Some? then {notes[n - 1]} else {};
    assert now <= before + added by {
      forall x | x in now ensures x in before + added {
        var i :| 0 <= i < n && ParseAmount(amounts[i]).Some? && notes[i] == x;
        if i < n - 1 {
          assert x in before;
        }
      }
    }
    assert before + added <= now by {
      forall x | x in before + added ensures x in now {
        if x in before {
          var i :| 0 <= i < n - 1 && ParseAmount(amounts[i]).Some? && notes[i] == x;
          assert x in now;
        }
      }
    }
  }

  /** What an amount cell adds to the total: its number, or nothing for text. */
  function NumberValue(cell: AmountCell): real {
    match cell
    case Number(v) => v
    case Text(_) => 0.0
  }

  /** The sum of the numeric cells of a detail table. */
  function NumberTotal(detail: seq<DetailRow>): real {
    if detail == [] then 0.0
    else NumberTotal(detail[..|detail| - 1]) + NumberValue(detail[|detail| - 1].amount)
  }

  lemma NumberTotalAppend(detail: seq<DetailRow>, row: DetailRow)
    ensures NumberTotal(detail + [row]) == NumberTotal(detail) + NumberValue(row.amount)
  {
    assert (detail + [row])[..|detail|] == detail;
  }

  /** The summed amount of the entries of category `k`. */
  function CategoryTotal(ps: seq<Entry>, k: string): real {
    if ps == [] then 0.0
    else CategoryTotal(ps[..|ps| - 1], k) + if ps[|ps| - 1].category == k then ps[|ps| - 1].amount else 0.0
  }

  /** A category with no entry totals zero. */
  lemma {:induction false} CategoryTotalAbsent(ps: seq<Entry>, k: string)
    requires k !in Categories(ps)
    ensures CategoryTotal(ps, k) == 0.0
  {
    if ps != [] {
      var init := ps[..|ps| - 1];
      assert ps == init + [ps[|ps| - 1]];
      CategoriesAppend(init, [ps[|ps| - 1]]);
      CategoryTotalAbsent(init, k);
    }
  }

  /**
   * `es` lists every category of `ps` once, each with its total: the entry
   * set of the consolidation map, in some order.
   */
  predicate Enumerates(es: seq<Entry>, ps: seq<Entry>) {
    DistinctCategories(es) && Categories(es) == Categories(ps)
    && forall i :: 0 <= i < |es| ==> es[i].amount == CategoryTotal(ps, es[i].category)
  }

  /** Consolidation conserves the total: the category totals add up to the sum of the entries. */
  lemma {:induction false} EnumerationSum(es: seq<Entry>, ps: seq<Entry>)
    requires Enumerates(es, ps)
    ensures Sum(es) == Sum(ps)
    decreases |ps|, 1
  {
    if ps == [] {
      CategoriesEmpty(ps);
      CategoriesEmpty(es);
    } else {
      var init, last := ps[..|ps| - 1], ps[|ps| - 1];
      SnocFacts(ps);
      var j := FindCategory(es, last.category);
      if last.category in Categories(init) {
        EnumerationSumUpdate(es, ps, j);
      } else {
        EnumerationSumRemove(es, ps, j);
      }
    }
  }

  /** `EnumerationSum` when the last entry's category occurs earlier: its entry is lowered. */
  lemma {:induction false} EnumerationSumUpdate(es: seq<Entry>, ps: seq<Entry>, j: nat)
    requires Enumerates(es, ps) && ps != [] && j < |es|
    requires es[j].category == ps[|ps| - 1].category
    requires ps[|ps| - 1].category in Categories(ps[..|ps| - 1])
    ensures Sum(es) == Sum(ps)
    decreases |ps|, 0
  {
    var init, last := ps[..|ps| - 1], ps[|ps| - 1];
    var lowered := Entry(last.category, es[j].amount - last.amount);
    EnumerationAfterUpdate(es, ps, j);
    EnumerationSum(es[j := lowered], init);
    SumUpdate(es, j, lowered);
  }

  /** `EnumerationSum` when the last entry is the only one of its category: its entry goes. */
  lemma {:induction false} EnumerationSumRemove(es: seq<Entry>, ps: seq<Entry>, j: nat)
    requires Enumerates(es, ps) && ps != [] && j < |es|
    requires es[j].category == ps[|ps| - 1].category
    requires ps[|ps| - 1].category !in Categories(ps[..|ps| - 1])
    ensures Sum(es) == Sum(ps)
    decreases |ps|, 0
  {
    var init, last := ps[..|ps| - 1], ps[|ps| - 1];
    EnumerationAfterRemove(es, ps, j);
    EnumerationSum(es[..j] + es[j + 1..], init);
    SumRemove(es, j);
    CategoryTotalAbsent(init, last.category);
  }

  /** Taking the last entry off `ps`, when its category occurs earlier, lowers that category's total. */
  lemma EnumerationAfterUpdate(es: seq<Entry>, ps: seq<Entry>, j: nat)
    requires Enumerates(es, ps) && ps != [] && j < |es|
    requires es[j].category == ps[|ps| - 1].category
    requires ps[|ps| - 1].category in Categories(ps[..|ps| - 1])
    ensures Enumerates(es[j := Entry(es[j].category, es[j].amount - ps[|ps| - 1].amount)], ps[..|ps| - 1])
  {
    var init := ps[..|ps| - 1];
    var last := ps[|ps| - 1];
    var es' := es[j := Entry(last.category, es[j].amount - last.amount)];
    ReplaceSameCategory(es, j, Entry(last.category, es[j].amount - last.amount));
    assert ps == init + [last];
    CategoriesAppend(init, [last]);
    assert Categories([last]) == {last.category};
    forall i | 0 <= i < |es'| ensures es'[i].amount == CategoryTotal(init, es'[i].category) {
      if i != j {
        assert es[i].category != es[j].category;
      }
    }
  }

  /** Taking the last entry off `ps`, when it is the only one of its category, drops that category. */
  lemma EnumerationAfterRemove(es: seq<Entry>, ps: seq<Entry>, j: nat)
    requires Enumerates(es, ps) && ps != [] && j < |es|
    requires es[j].category == ps[|ps| - 1].category
    requires ps[|ps| - 1].category !in Categories(ps[..|ps| - 1])
    ensures Enumerates(es[..j] + es[j + 1..], ps[..|ps| - 1])
  {
    var init := ps[..|ps| - 1];
    var last := ps[|ps| - 1];
    var es' := es[..j] + es[j + 1..];
    RemoveDistinct(es, j);
    assert ps == init + [last];
    CategoriesAppend(init, [last]);
    assert Categories([last]) == {last.category};
    forall i | 0 <= i < |es'| ensures es'[i].amount == CategoryTotal(init, es'[i].category) {
      var i' := if i < j then i else i + 1;
      assert es'[i] == es[i'];
      assert es[i'].category != es[j].category;
    }
  }

  /** Reordering an enumeration leaves it one. */
  lemma EnumeratesPermutation(es: seq<Entry>, rs: seq<Entry>, ps: seq<Entry>)
    requires Enumerates(es, ps) && multiset(rs) == multiset(es)
    requires DistinctCategories(rs) && Categories(rs) == Categories(es)
    ensures Enumerates(rs, ps)
  {
    forall i | 0 <= i < |rs| ensures rs[i].amount == CategoryTotal(ps, rs[i].category) {
      assert rs[i] in multiset(es);
      var j :| 0 <= j < |es| && es[j] == rs[i];
    }
  }

  /**
   * The detail row written for a note and its raw amount: the amount is a
   * number when it parses after cleaning, and the raw text otherwise.
   */
  predicate IsDetailRow(row: DetailRow, note: string, raw: string) {
    row.category == note
    && (ParseAmount(raw).Some? ==> row.amount == Number(ParseAmount(raw).value))
    && (ParseAmount(raw).None? ==> row.amount == Text(raw))
  }

  /** The detail row the loop of lines 80-93 writes for one note and its raw amount. */
  function DetailRowOf(note: string, raw: string): DetailRow
  {
    match ParseAmount(raw)
    case Some(v) => DetailRow(note, Number(v))
    case None => DetailRow(note, Text(raw))
  }

  /** The first `n` detail rows, as the loop of lines 80-93 writes them. */
  function DetailRows(notes: seq<string>, amounts: seq<string>, n: nat): (rows: seq<DetailRow>)
    requires n <= |notes| && n <= |amounts|
    ensures |rows| == n
  {
    if n == 0 then [] else DetailRows(notes, amounts, n - 1) + [DetailRowOf(notes[n - 1], amounts[n - 1])]
  }

  /** Row `k` of the detail table is the row of note `k` and amount `k`. */
  lemma {:induction false} DetailRowAt(notes: seq<string>, amounts: seq<string>, n: nat, k: nat)
    requires k < n <= |notes| && n <= |amounts|
    ensures DetailRows(notes, amounts, n)[k] == DetailRowOf(notes[k], amounts[k])
  {
    if k < n - 1 {
      DetailRowAt(notes, amounts, n - 1, k);
      DetailRowsPrefix(notes, amounts, n, k);
    } else {
      DetailRowsLast(notes, amounts, n);
    }
  }

  /** Row `n - 1` is the row of the last note and amount. */
  lemma DetailRowsLast(notes: seq<string>, amounts: seq<string>, n: nat)
    requires 0 < n <= |notes| && n <= |amounts|
    ensures DetailRows(notes, amounts, n)[n - 1] == DetailRowOf(notes[n - 1], amounts[n - 1])
  {
  }

  /** Writing row `n` leaves the rows before it as they were. */
  lemma DetailRowsPrefix(notes: seq<string>, amounts: seq<string>, n: nat, k: nat)
    requires k < n - 1 && n <= |notes| && n <= |amounts|
    ensures DetailRows(notes, amounts, n)[k] == DetailRows(notes, amounts, n - 1)[k]
  {
  }

  lemma {:induction false} DetailRowsTotal(notes: seq<string>, amounts: seq<string>, n: nat)
    requires n <= |notes| && n <= |amounts|
    ensures NumberTotal(DetailRows(notes, amounts, n)) == Sum(Parsed(notes, amounts, n))
  {
    if n > 0 {
      DetailRowsTotal(notes, amounts, n - 1);
      SumParsedStep(notes, amounts, n);
      var before := DetailRows(notes, amounts, n - 1);
      var row := DetailRows(notes, amounts, n)[n - 1];
      assert DetailRows(notes, amounts, n) == before + [row];
      NumberTotalAppend(before, row);
    }
  }

  /**
   * Lines 76-93: one detail row per position up to the shorter list; an
   * amount that parses after cleaning is a number and counts towards the
   * total, any other keeps its raw text and counts for nothing.
   */
  method FillDetail(notes: seq<string>, amounts: seq<string>) returns (detail: seq<DetailRow>, totalAmount: real)
    ensures |detail| == Min(|notes|, |amounts|)
    ensures forall i :: 0 <= i < |detail| ==> IsDetailRow(detail[i], notes[i], amounts[i])
    ensures totalAmount == NumberTotal(detail)
    ensures totalAmount == Sum(Parsed(notes, amounts, |detail|))
  {
    var rowCount := Min(|notes|, |amounts|);
    totalAmount := 0.0;
    detail := [];
    for i := 0 to rowCount
      invariant detail == DetailRows(notes, amounts, i)
      invariant totalAmount == NumberTotal(detail)
    {
      var row: DetailRow;
      match ParseAmount(amounts[i]) {
        case Some(amountValue) =>
          row := DetailRow(notes[i], Number(amountValue));
          totalAmount := totalAmount + amountValue;
        case None =>
          row := DetailRow(notes[i], Text(amounts[i]));
      }
      assert row == DetailRowOf(notes[i], amounts[i]);
      assert (detail + [row])[..i] == detail;
      detail := detail + [row];
    }
    DetailRowsTotal(notes, amounts, rowCount);
    forall k | 0 <= k < |detail|
      ensures IsDetailRow(detail[k], notes[k], amounts[k])
    {
      DetailRowAt(notes, amounts, rowCount, k);
    }
  }

  /** One more row adds to the sum exactly what its detail cell adds to the detail total. */
  lemma SumParsedStep(notes: seq<string>, amounts: seq<string>, n: nat)
    requires 0 < n <= |notes| && n <= |amounts|
    ensures Sum(Parsed(notes, amounts, n))
         == Sum(Parsed(notes, amounts, n - 1)) + NumberValue(DetailRows(notes, amounts, n)[n - 1].amount)
  {
    var before := Parsed(notes, amounts, n - 1);
    match ParseAmount(amounts[n - 1])
    case Some(v) =>
      SumAppend(before, [Entry(notes[n - 1], v)]);
    case None =>
      assert Parsed(notes, amounts, n) == before + [] == before;
  }

  /** `m` maps exactly the categories of `ps`, each to its total. */
  predicate Consolidates(m: map<string, real>, ps: seq<Entry>) {
    m.Keys == Categories(ps) && forall k :: k in m ==> m[k] == CategoryTotal(ps, k)
  }

  /** Adding an entry to its category's sum, or starting a new sum, keeps the map consolidating. */
  lemma ConsolidateStep(m: map<string, real>, ps: seq<Entry>, e: Entry)
    requires Consolidates(m, ps)
    ensures Consolidates(Accumulate(m, e.category, e.amount), ps + [e])
  {
    AppendDistinct(ps, e);
    assert (ps + [e])[..|ps|] == ps;
    if e.category !in m {
      CategoryTotalAbsent(ps, e.category);
    }
  }

  /** `consolidatedData.put` of one amount: added to its category's sum, or starting it. */
  function Accumulate(m: map<string, real>, category: string, amount: real): map<string, real> {
    if category in m then m[category := m[category] + amount] else m[category := amount]
  }

  /**
   * One pass of the loop of lines 120-136: a row whose cleaned amount
   * parses adds it to its category's sum, any other row is skipped.
   */
  function AccumulateRow(m: map<string, real>, note: string, raw: string): map<string, real> {
    match ParseAmount(raw)
    case Some(v) => Accumulate(m, note, v)
    case None => m
  }

  /** The map the consolidation loop holds after the first `n` rows. */
  function Consolidation(notes: seq<string>, amounts: seq<string>, n: nat): map<string, real>
    requires n <= |notes| && n <= |amounts|
  {
    if n == 0 then map[] else AccumulateRow(Consolidation(notes, amounts, n - 1), notes[n - 1], amounts[n - 1])
  }

  /** After `n` rows the map holds every category of a row that parses, with its total, and nothing else. */
  lemma {:induction false} ConsolidationTotals(notes: seq<string>, amounts: seq<string>, n: nat)
    requires n <= |notes| && n <= |amounts|
    ensures Consolidates(Consolidation(notes, amounts, n), Parsed(notes, amounts, n))
  {
    if n == 0 {
      assert Categories(Parsed(notes, amounts, 0)) == {};
    } else {
      ConsolidationTotals(notes, amounts, n - 1);
      ConsolidationStep(notes, amounts, n);
    }
  }

  /** Row `n - 1` adds its parsed amount to its note's sum, or leaves the map alone. */
  lemma ConsolidationNext(notes: seq<string>, amounts: seq<string>, n: nat)
    requires 0 < n <= |notes| && n <= |amounts|
    ensures ParseAmount(amounts[n - 1]).None? ==> Consolidation(notes, amounts, n) == Consolidation(notes, amounts, n - 1)
    ensures ParseAmount(amounts[n - 1]).Some? ==>
      Consolidation(notes, amounts, n)
      == Accumulate(Consolidation(notes, amounts, n - 1), notes[n - 1], ParseAmount(amounts[n - 1]).value)
  {
  }

  /** One more row keeps the map consolidating the entries that parse. */
  lemma ConsolidationStep(notes: seq<string>, amounts: seq<string>, n: nat)
    requires 0 < n <= |notes| && n <= |amounts|
    requires Consolidates(Consolidation(notes, amounts, n - 1), Parsed(notes, amounts, n - 1))
    ensures Consolidates(Consolidation(notes, amounts, n), Parsed(notes, amounts, n))
  {
    var m, ps := Consolidation(notes, amounts, n - 1), Parsed(notes, amounts, n - 1);
    ParsedStep(notes, amounts, n);
    match ParseAmount(amounts[n - 1])
    case Some(v) =>
      var e := Entry(notes[n - 1], v);
      assert Consolidation(notes, amounts, n) == Accumulate(m, e.category, e.amount);
      assert Parsed(notes, amounts, n) == ps + [e];
      ConsolidateStep(m, ps, e);
    case None =>
      assert Consolidation(notes, amounts, n) == m;
  }

  /**
   * Lines 119-137: `consolidatedData` maps each category of a row that
   * parses to the sum of that category's amounts; rows that fail are skipped.
   */
  method ConsolidateRows(notes: seq<string>, amounts: seq<string>) returns (consolidatedData: map<string, real>)
    ensures Consolidates(consolidatedData, Parsed(notes, amounts, Min(|notes|, |amounts|)))
  {
    var rowCount := Min(|notes|, |amounts|);
    consolidatedData := map[];
    for i := 0 to rowCount
      invariant consolidatedData == Consolidation(notes, amounts, i)
    {
      var category := notes[i];
      var parsed := ParseAmount(amounts[i]);
      ConsolidationNext(notes, amounts, i + 1);
      if parsed.Some? {
        var amount := parsed.value;
        if category in consolidatedData {
          consolidatedData := consolidatedData[category := consolidatedData[category] + amount];
        } else {
          consolidatedData := consolidatedData[category := amount];
        }
      }
    }
    ConsolidationTotals(notes, amounts, rowCount);
  }

  /**
   * Line 144: `new ArrayList<>(consolidatedData.entrySet())`. A `HashMap`
   * promises no order, so each next key is an arbitrary remaining one.
   */
  method EntryList(m: map<string, real>) returns (es: seq<Entry>)
    ensures DistinctCategories(es) && Categories(es) == m.Keys
    ensures forall i :: 0 <= i < |es| ==> es[i].category in m && es[i].amount == m[es[i].category]
  {
    es := [];
    var rest := m.Keys;
    while rest != {}
      invariant rest <= m.Keys
      invariant DistinctCategories(es) && Categories(es) == m.Keys - rest
      invariant EntriesOf(es, m)
      decreases |rest|
    {
      var k :| k in rest;
      AppendEntryOf(es, m, rest, k);
      es := es + [Entry(k, m[k])];
      rest := rest - {k};
    }
  }

  /** Every entry of `es` is a key of `m` with its value. */
  predicate EntriesOf(es: seq<Entry>, m: map<string, real>) {
    forall i :: 0 <= i < |es| ==> es[i].category in m && es[i].amount == m[es[i].category]
  }

  /** Appending a key not listed yet, with its value, keeps the entry list sound. */
  lemma AppendEntryOf(es: seq<Entry>, m: map<string, real>, rest: set<string>, k: string)
    requires k in rest && rest <= m.Keys
    requires DistinctCategories(es) && Categories(es) == m.Keys - rest && EntriesOf(es, m)
    ensures DistinctCategories(es + [Entry(k, m[k])])
    ensures Categories(es + [Entry(k, m[k])]) == m.Keys - (rest - {k})
    ensures EntriesOf(es + [Entry(k, m[k])], m)
  {
    AppendDistinct(es, Entry(k, m[k]));
    var es' := es + [Entry(k, m[k])];
    forall i | 0 <= i < |es'| ensures es'[i].category in m && es'[i].amount == m[es'[i].category] {
      if i < |es| {
        assert es'[i] == es[i];
      }
    }
  }

  /** Whether the entry at position `pos` (0-based) of the sorted list becomes a slice. */
  predicate IsKept(e: Entry, pos: nat, threshold: real) {
    e.amount >= threshold && pos < MaxSlices
  }

  /** The entries the loop of lines 149-165 puts into `chartData`, in order. */
  function Kept(s: seq<Entry>, threshold: real): (r: seq<Entry>)
    ensures |r| <= |s| && |r| <= MaxSlices
  {
    if s == [] then []
    else
      var before := Kept(s[..|s| - 1], threshold);
      if IsKept(s[|s| - 1], |s| - 1, threshold) then before + [s[|s| - 1]] else before
  }

  /** Every slice is an entry of the list of at least the threshold, and no category is doubled. */
  lemma {:induction false} KeptFacts(s: seq<Entry>, threshold: real)
    ensures forall e :: e in Kept(s, threshold) ==> e in s && e.amount >= threshold
    ensures Categories(Kept(s, threshold)) <= Categories(s)
    ensures DistinctCategories(s) ==> DistinctCategories(Kept(s, threshold))
  {
    if s != [] {
      var init, last := s[..|s| - 1], s[|s| - 1];
      var before := Kept(init, threshold);
      KeptFacts(init, threshold);
      SnocFacts(s);
      if IsKept(last, |s| - 1, threshold) {
        assert Kept(s, threshold) == before + [last];
        AppendDistinct(before, last);
      } else {
        assert Kept(s, threshold) == before;
      }
    }
  }

  /** `otherTotal`: the summed amount of the entries that were not kept. */
  function OtherTotal(s: seq<Entry>, threshold: real): real {
    if s == [] then 0.0
    else
      var last := s[|s| - 1];
      OtherTotal(s[..|s| - 1], threshold) + if IsKept(last, |s| - 1, threshold) then 0.0 else last.amount
  }

  /** The number of entries of at least `threshold`. */
  function CountAtLeast(s: seq<Entry>, threshold: real): (c: nat)
    ensures c <= |s|
  {
    if s == [] then 0
    else CountAtLeast(s[..|s| - 1], threshold) + if s[|s| - 1].amount >= threshold then 1 else 0
  }

  /** `chartData.put` of each entry in turn. */
  function PutAll(es: seq<Entry>): (r: seq<Entry>)
    ensures Categories(r) == Categories(es)
    ensures |r| <= |es|
  {
    if es == [] then []
    else
      var init := es[..|es| - 1];
      var last := es[|es| - 1];
      assert es == init + [last];
      CategoriesAppend(init, [last]);
      assert Categories([last]) == {last.category};
      Put(PutAll(init), last.category, last.amount)
  }

  /** The chart slices: the kept entries, then "Other" put with `otherTotal` when that is positive. */
  function Chart(s: seq<Entry>, threshold: real): (r: seq<Entry>)
    ensures |r| <= MaxSlices + 1
    ensures OtherLabel in Categories(r) <==>
      OtherTotal(s, threshold) > 0.0 || OtherLabel in Categories(Kept(s, threshold))
    ensures Categories(r) <= Categories(s) + {OtherLabel}
  {
    KeptFacts(s, threshold);
    var slices := PutAll(Kept(s, threshold));
    var otherTotal := OtherTotal(s, threshold);
    if otherTotal > 0.0 then Put(slices, OtherLabel, otherTotal) else slices
  }

  /** Every entry of `s` is at least `threshold`. */
  predicate AllAtLeast(s: seq<Entry>, threshold: real) {
    forall i :: 0 <= i < |s| ==> s[i].amount >= threshold
  }

  /** When every entry is at least the threshold, all of them are counted. */
  lemma {:induction false} CountAllAtLeast(s: seq<Entry>, threshold: real)
    requires AllAtLeast(s, threshold)
    ensures CountAtLeast(s, threshold) == |s|
  {
    if s != [] {
      CountAllAtLeast(s[..|s| - 1], threshold);
    }
  }

  /**
   * On a descending list the kept entries are exactly its first
   * `min(10, #{amount >= threshold})` entries, and `otherTotal` is the sum
   * of all the entries after them.
   */
  lemma {:induction false} KeptPrefix(s: seq<Entry>, threshold: real)
    requires NonIncreasing(s)
    ensures Kept(s, threshold) == s[..Min(MaxSlices, CountAtLeast(s, threshold))]
    ensures OtherTotal(s, threshold) == Sum(s[Min(MaxSlices, CountAtLeast(s, threshold))..])
  {
    if s != [] {
      KeptPrefix(s[..|s| - 1], threshold);
      assert s[|s| - 1].amount >= threshold ==> AllAtLeast(s[..|s| - 1], threshold);
      if IsKept(s[|s| - 1], |s| - 1, threshold) {
        KeptPrefixLastKept(s, threshold);
      } else {
        KeptPrefixLastOther(s, threshold);
      }
    }
  }

  /** The step of `KeptPrefix` when the last entry becomes a slice: then all of them do. */
  lemma KeptPrefixLastKept(s: seq<Entry>, threshold: real)
    requires s != [] && IsKept(s[|s| - 1], |s| - 1, threshold)
    requires AllAtLeast(s[..|s| - 1], threshold)
    requires var init := s[..|s| - 1]; var m := Min(MaxSlices, CountAtLeast(init, threshold));
      Kept(init, threshold) == init[..m] && OtherTotal(init, threshold) == Sum(init[m..])
    ensures Kept(s, threshold) == s[..Min(MaxSlices, CountAtLeast(s, threshold))]
    ensures OtherTotal(s, threshold) == Sum(s[Min(MaxSlices, CountAtLeast(s, threshold))..])
  {
    var init, last := s[..|s| - 1], s[|s| - 1];
    assert Kept(s, threshold) == Kept(init, threshold) + [last];
    assert OtherTotal(s, threshold) == OtherTotal(init, threshold);
    assert CountAtLeast(init, threshold) == |init| by {
      CountAllAtLeast(init, threshold);
    }
    assert CountAtLeast(s, threshold) == |s|;
    assert init[..|init|] == init && init[|init|..] == [];
    assert s == init + [last];
    assert s[..|s|] == s && s[|s|..] == [];
  }

  /** The step of `KeptPrefix` when the last entry goes to `otherTotal`: the prefix stays. */
  lemma KeptPrefixLastOther(s: seq<Entry>, threshold: real)
    requires s != [] && !IsKept(s[|s| - 1], |s| - 1, threshold)
    requires s[|s| - 1].amount >= threshold ==> AllAtLeast(s[..|s| - 1], threshold)
    requires var init := s[..|s| - 1]; var m := Min(MaxSlices, CountAtLeast(init, threshold));
      Kept(init, threshold) == init[..m] && OtherTotal(init, threshold) == Sum(init[m..])
    ensures Kept(s, threshold) == s[..Min(MaxSlices, CountAtLeast(s, threshold))]
    ensures OtherTotal(s, threshold) == Sum(s[Min(MaxSlices, CountAtLeast(s, threshold))..])
  {
    var init := s[..|s| - 1];
    var m := Min(MaxSlices, CountAtLeast(init, threshold));
    assert Min(MaxSlices, CountAtLeast(s, threshold)) == m by {
      if s[|s| - 1].amount >= threshold {
        CountAllAtLeast(init, threshold);
      }
    }
    SumSnocSuffix(s, m);
  }

  /** A suffix that ends the list sums to the suffix before the last entry plus that entry. */
  lemma SumSnocSuffix(s: seq<Entry>, m: nat)
    requires m < |s|
    ensures s[..m] == s[..|s| - 1][..m]
    ensures Sum(s[m..]) == Sum(s[..|s| - 1][m..]) + s[|s| - 1].amount
  {
    var init, last := s[..|s| - 1], s[|s| - 1];
    assert s[m..] == init[m..] + [last];
    SumAppend(init[m..], [last]);
    assert Sum([last]) == last.amount;
  }

  /** Every entry goes either to a slice or to `otherTotal`. */
  lemma {:induction false} KeptAndOtherSum(s: seq<Entry>, threshold: real)
    ensures Sum(Kept(s, threshold)) + OtherTotal(s, threshold) == Sum(s)
  {
    if s != [] {
      var init := s[..|s| - 1];
      var last := s[|s| - 1];
      KeptAndOtherSum(init, threshold);
      if IsKept(last, |s| - 1, threshold) {
        SumAppend(Kept(init, threshold), [last]);
      }
    }
  }

  /** Putting entries of distinct categories into an empty `LinkedHashMap` keeps them as they are. */
  lemma {:induction false} PutAllDistinct(es: seq<Entry>)
    requires DistinctCategories(es)
    ensures PutAll(es) == es
  {
    if es != [] {
      var init, last := es[..|es| - 1], es[|es| - 1];
      SnocFacts(es);
      PutAllDistinct(init);
      assert PutAll(es) == Put(init, last.category, last.amount);
      assert Entry(last.category, last.amount) == last;
    }
  }

  /**
   * The shape of the chart over distinct categories: the kept entries, then
   * a new "Other" slice when `otherTotal > 0`, unless a kept category is
   * itself named "Other", whose amount is then overwritten in place.
   */
  lemma ChartShape(s: seq<Entry>, threshold: real)
    requires DistinctCategories(s)
    ensures var kept, other := Kept(s, threshold), OtherTotal(s, threshold);
      (other <= 0.0 ==> Chart(s, threshold) == kept)
      && (other > 0.0 && OtherLabel !in Categories(kept) ==>
            Chart(s, threshold) == kept + [Entry(OtherLabel, other)])
      && (other > 0.0 && OtherLabel in Categories(kept) ==>
            |Chart(s, threshold)| == |kept|
            && forall i :: 0 <= i < |kept| ==>
                 Chart(s, threshold)[i] == if kept[i].category == OtherLabel then Entry(OtherLabel, other) else kept[i])
  {
    var kept, other := Kept(s, threshold), OtherTotal(s, threshold);
    KeptFacts(s, threshold);
    PutAllDistinct(kept);
    if other > 0.0 {
      assert Chart(s, threshold) == Put(kept, OtherLabel, other);
    } else {
      assert Chart(s, threshold) == kept;
    }
  }

  /**
   * Over exact arithmetic the slices add up to the sum of the list, as long
   * as no kept category is named "Other" and the rest does not sum below zero.
   */
  lemma ChartSum(s: seq<Entry>, threshold: real)
    requires DistinctCategories(s)
    requires OtherLabel !in Categories(Kept(s, threshold)) && OtherTotal(s, threshold) >= 0.0
    ensures Sum(Chart(s, threshold)) == Sum(s)
  {
    var kept, other := Kept(s, threshold), OtherTotal(s, threshold);
    KeptFacts(s, threshold);
    PutAllDistinct(kept);
    KeptAndOtherSum(s, threshold);
    if other > 0.0 {
      assert Chart(s, threshold) == kept + [Entry(OtherLabel, other)];
      SumAppend(kept, [Entry(OtherLabel, other)]);
    }
  }

  /**
   * Lines 140-170: every sorted entry gets a consolidated row; an entry of
   * at least the threshold while `chartRowIndex <= 10` becomes a slice,
   * any other adds to `otherTotal`; "Other" is put last when positive.
   */
  method CollapseChart(sortedData: seq<Entry>, threshold: real) returns (rows: seq<Entry>, chartData: seq<Entry>)
    ensures rows == sortedData
    ensures chartData == Chart(sortedData, threshold)
  {
    chartData := [];
    rows := [];
    var otherTotal := 0.0;
    var chartRowIndex := 1;
    for i := 0 to |sortedData|
      invariant chartRowIndex == i + 1
      invariant rows == sortedData[..i]
      invariant chartData == PutAll(Kept(sortedData[..i], threshold))
      invariant otherTotal == OtherTotal(sortedData[..i], threshold)
    {
      var entry := sortedData[i];
      assert sortedData[..i + 1] == sortedData[..i] + [entry];
      ChartStep(sortedData[..i], entry, threshold);
      if entry.amount >= threshold && chartRowIndex <= MaxSlices {
        chartData := Put(chartData, entry.category, entry.amount);
      } else {
        otherTotal := otherTotal + entry.amount;
      }
      rows := rows + [entry];
      chartRowIndex := chartRowIndex + 1;
    }
    assert sortedData[..|sortedData|] == sortedData;
    if otherTotal > 0.0 {
      chartData := Put(chartData, OtherLabel, otherTotal);
    }
  }

  /** One more sorted entry either is put into the chart or adds to `otherTotal`. */
  lemma ChartStep(p: seq<Entry>, e: Entry, threshold: real)
    ensures IsKept(e, |p|, threshold) ==>
      PutAll(Kept(p + [e], threshold)) == Put(PutAll(Kept(p, threshold)), e.category, e.amount)
      && OtherTotal(p + [e], threshold) == OtherTotal(p, threshold)
    ensures !IsKept(e, |p|, threshold) ==>
      PutAll(Kept(p + [e], threshold)) == PutAll(Kept(p, threshold))
      && OtherTotal(p + [e], threshold) == OtherTotal(p, threshold) + e.amount
  {
    var s := p + [e];
    assert s[..|s| - 1] == p;
    if IsKept(e, |p|, threshold) {
      var kept := Kept(p, threshold);
      assert (kept + [e])[..|kept|] == kept;
    }
  }

  /**
   * What the report writer produces for `notes` and `amounts` (lines
   * 76-170): one detail row per pair up to the shorter list, the total of
   * the amounts that parse, every parsed category once with its total,
   * largest first and adding up to the total, and the chart collapsed at
   * 2% of the total.
   */
  predicate IsReport(report: Report, notes: seq<string>, amounts: seq<string>) {
    |report.detail| == Min(|notes|, |amounts|)
    && (forall i :: 0 <= i < |report.detail| ==> IsDetailRow(report.detail[i], notes[i], amounts[i]))
    && report.total == NumberTotal(report.detail)
    && report.total == Sum(Parsed(notes, amounts, |report.detail|))
    && Enumerates(report.consolidated, Parsed(notes, amounts, |report.detail|))
    && NonIncreasing(report.consolidated)
    && Sum(report.consolidated) == report.total
    && report.chart == Chart(report.consolidated, ChartThreshold(report.total))
  }

  /**
   * `writeNotesAndAmountsToExcel`, without the workbook: the detail table,
   * the total of the amounts that parse, the consolidated table (every
   * category once with its total, largest first) and the chart slices.
   */
  method WriteNotesAndAmounts(notes: seq<string>, amounts: seq<string>) returns (report: Report)
    ensures IsReport(report, notes, amounts)
    ensures |report.chart| <= MaxSlices + 1
  {
    var detail, totalAmount := FillDetail(notes, amounts);
    var threshold := ChartThreshold(totalAmount);
    var consolidatedData := ConsolidateRows(notes, amounts);
    var ps := Parsed(notes, amounts, |detail|);
    var entries := EntryList(consolidatedData);
    assert Enumerates(entries, ps);
    var sortedData := SortDescending(entries);
    EnumeratesPermutation(entries, sortedData, ps);
    EnumerationSum(sortedData, ps);
    var rows, chartData := CollapseChart(sortedData, threshold);
    report := Report(detail, totalAmount, rows, chartData);
  }

  /** The labels of the narration column: lines 44-45, one per contributing row of column 1. */
  function StatementNotes(sheet: Sheet): seq<string> {
    var rows := CellRows(sheet, NarrationColumn, |sheet|);
    seq(|rows|, k requires 0 <= k < |rows| => Classify(Trim(sheet[rows[k]][NarrationColumn])))
  }

  /** The amount texts of line 46, one per contributing row of column 3. */
  function StatementAmounts(sheet: Sheet, localeParse: string -> Option<real>, show: real -> string): seq<string> {
    var rows := CellRows(sheet, AmountColumn, |sheet|);
    seq(|rows|, k requires 0 <= k < |rows| => CellValue(sheet[rows[k]][AmountColumn], true, localeParse, show))
  }

  /**
   * `processExcelFile`: narrations from column 1, classified; amounts from
   * column 3; then the report. An unsupported file name is an error.
   */
  method ProcessExcelFile(sheet: Sheet, filename: string,
                          localeParse: string -> Option<real>, show: real -> string)
    returns (r: Result<Report, ExtractError>)
    ensures r.Ok? <==> GetWorkbook(filename).Ok?
    ensures r.Err? ==> r.error == UnsupportedFileType(filename)
    ensures r.Ok? ==> IsReport(r.value, StatementNotes(sheet), StatementAmounts(sheet, localeParse, show))
    ensures r.Ok? ==>
      var amountRows := CellRows(sheet, AmountColumn, |sheet|);
      forall i :: 0 <= i < |r.value.detail| ==>
        var v := Trim(sheet[amountRows[i]][AmountColumn]);
        (!IsBlank(v) && localeParse(v).None? ==> r.value.detail[i].amount == Text(NumberFormatSentinel))
  {
    var columnBData := ExtractTransactions(sheet, filename);
    if columnBData.Err? {
      return Err(columnBData.error);
    }
    var notes := GetNotesFromTransactions(columnBData.value);
    var amounts := ExtractAmounts(sheet, filename, localeParse, show);
    // The file name was accepted by the first read, so the second read succeeds as well.
    assert amounts.Ok?;
    StatementNotesAre(sheet, columnBData.value, notes);
    StatementAmountsAre(sheet, localeParse, show, amounts.value);
    var report := WriteNotesAndAmounts(notes, amounts.value);
    forall i | 0 <= i < |report.detail| && amounts.value[i] == NumberFormatSentinel
      ensures report.detail[i].amount == Text(NumberFormatSentinel)
    {
      RejectedAmountStaysText(report, notes, amounts.value, i);
    }
    r := Ok(report);
  }

  /** The labels of the narrations read from column 1 are the statement's notes. */
  lemma StatementNotesAre(sheet: Sheet, transactions: seq<string>, notes: seq<string>)
    requires var rows := CellRows(sheet, NarrationColumn, |sheet|);
      |transactions| == |rows|
      && forall k :: 0 <= k < |rows| ==> transactions[k] == Trim(sheet[rows[k]][NarrationColumn])
    requires |notes| == |transactions|
    requires forall i :: 0 <= i < |transactions| ==> notes[i] == Classify(transactions[i])
    ensures notes == StatementNotes(sheet)
  {
  }

  /** The amounts read from column 3 are the statement's amount texts. */
  lemma StatementAmountsAre(sheet: Sheet, localeParse: string -> Option<real>, show: real -> string, amounts: seq<string>)
    requires var rows := CellRows(sheet, AmountColumn, |sheet|);
      |amounts| == |rows|
      && forall k :: 0 <= k < |rows| ==> amounts[k] == CellValue(sheet[rows[k]][AmountColumn], true, localeParse, show)
    ensures amounts == StatementAmounts(sheet, localeParse, show)
  {
  }

  /** A row whose amount is the reader's failure marker keeps it as text. */
  lemma RejectedAmountStaysText(report: Report, notes: seq<string>, amounts: seq<string>, i: nat)
    requires IsReport(report, notes, amounts) && i < |report.detail|
    requires amounts[i] == NumberFormatSentinel
    ensures report.detail[i].amount == Text(NumberFormatSentinel)
  {
    SentinelExcluded();
    assert IsDetailRow(report.detail[i], notes[i], amounts[i]);
  }
}
