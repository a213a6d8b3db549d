/**
 * The revenue table of the scraped page: extraction of (Date, Revenue) text
 * pairs from the second tbody, then cleanup of the revenue text.
 * The parsed page is given as its tbody elements, each a sequence of rows,
 * each row the text of its td cells.
 */
module Revenue {
  import opened Outcomes
  import opened Sequences

  type Row = seq<string>
  type TableBody = seq<Row>
  type Page = seq<TableBody>

  /** One record of the revenue DataFrame: the Date and Revenue columns, as text. */
  datatype RevenueRow = RevenueRow(date: string, revenue: string)

  /** The revenue table is the second tbody element of the page (index 1). */
  const RevenueTableIndex := 1

  /** The page has a second tbody and every row of it has at least two cells. */
  predicate TableComplete(page: Page)
  {
    |page| > RevenueTableIndex &&
    forall i :: 0 <= i < |page[RevenueTableIndex]| ==> |page[RevenueTableIndex][i]| >= 2
  }

  /** One record per row, in document order: first cell as Date, second as Revenue. */
  function TableRecords(rows: TableBody): (r: seq<RevenueRow>)
    requires forall i :: 0 <= i < |rows| ==> |rows[i]| >= 2
    ensures |r| == |rows|
    ensures forall i :: 0 <= i < |rows| ==> r[i].date == rows[i][0] && r[i].revenue == rows[i][1]
  {
    if rows == [] then []
    else [RevenueRow(rows[0][0], rows[0][1])] + TableRecords(rows[1..])
  }

  /**
   * The row loop of main: append one record per tr of the second tbody.
   * Fails with the index error the script would raise: no second tbody, or
   * the first row with fewer than two cells.
   */
  method ExtractRevenue(page: Page) returns (r: Result<seq<RevenueRow>>)
    ensures |page| <= RevenueTableIndex ==> r == Err(MissingTableBody)
    ensures r.Ok? <==> TableComplete(page)
    ensures r.Ok? ==> r.value == TableRecords(page[RevenueTableIndex])
    ensures r.Ok? ==> forall i :: 0 <= i < |r.value| ==>
      r.value[i] == RevenueRow(page[RevenueTableIndex][i][0], page[RevenueTableIndex][i][1])
    ensures r.Err? && |page| > RevenueTableIndex ==>
      r.error.ShortRow? && r.error.row < |page[RevenueTableIndex]| &&
      |page[RevenueTableIndex][r.error.row]| < 2 &&
      forall j :: 0 <= j < r.error.row ==> |page[RevenueTableIndex][j]| >= 2
  {
    if |page| <= RevenueTableIndex {
      return Err(MissingTableBody);
    }
    var rows := page[RevenueTableIndex];
    var table: seq<RevenueRow> := [];
    for i := 0 to |rows|
      invariant forall j :: 0 <= j < i ==> |rows[j]| >= 2
      invariant |table| == i
      invariant forall j :: 0 <= j < i ==> table[j] == RevenueRow(rows[j][0], rows[j][1])
    {
      var cells := rows[i];
      if |cells| < 2 {
        return Err(ShortRow(i));
      }
      table := table + [RevenueRow(cells[0], cells[1])];
    }
    return Ok(table);
  }

  /** Python's literal replace of `c` by the empty string: every occurrence of `c` removed. */
  function RemoveChar(s: string, c: char): (r: string)
    ensures c !in r
    ensures forall x :: x in r ==> x in s
    ensures |r| <= |s|
  {
    if s == [] then []
    else (if s[0] == c then [] else [s[0]]) + RemoveChar(s[1..], c)
  }

  /** Removing `c` changes no other character: each one keeps its number of occurrences. */
  lemma {:induction false} RemoveCharCounts(s: string, c: char)
    ensures multiset(RemoveChar(s, c)) == multiset(s)[c := 0]
  {
    if s != [] {
      assert s == [s[0]] + s[1..];
      RemoveCharCounts(s[1..], c);
    }
  }

  /** Removal works character by character, so it keeps the order of the other characters. */
  lemma {:induction false} RemoveCharConcat(a: string, b: string, c: char)
    ensures RemoveChar(a + b, c) == RemoveChar(a, c) + RemoveChar(b, c)
  {
    if a == [] {
      assert a + b == b;
    } else {
      assert (a + b)[1..] == a[1..] + b;
      RemoveCharConcat(a[1..], b, c);
    }
  }

  /** The revenue text with thousands separators and dollar signs stripped. */
  function CleanRevenue(s: string): (r: string)
    ensures ',' !in r && '$' !in r
    ensures |r| <= |s|
  {
    RemoveChar(RemoveChar(s, ','), '$')
  }

  /** Cleanup removes every comma and dollar sign and keeps every other character as often as it occurs. */
  lemma CleanRevenueCounts(s: string)
    ensures multiset(CleanRevenue(s)) == multiset(s)[',' := 0]['$' := 0]
  {
    RemoveCharCounts(s, ',');
    RemoveCharCounts(RemoveChar(s, ','), '$');
  }

  /** Cleanup works character by character: it keeps the order of what it keeps. */
  lemma CleanRevenueConcat(a: string, b: string)
    ensures CleanRevenue(a + b) == CleanRevenue(a) + CleanRevenue(b)
  {
    RemoveCharConcat(a, b, ',');
    RemoveCharConcat(RemoveChar(a, ','), RemoveChar(b, ','), '$');
  }

  /** Text without a comma or a dollar sign is left as it is. */
  lemma {:induction false} CleanRevenueKeepsPlainText(s: string)
    requires ',' !in s && '$' !in s
    ensures CleanRevenue(s) == s
  {
    if s != [] {
      CleanRevenueKeepsPlainText(s[1..]);
      assert s == [s[0]] + s[1..];
      CleanRevenueConcat([s[0]], s[1..]);
    }
  }

  /** Cleaning cleaned text changes nothing. */
  lemma CleanRevenueIdempotent(s: string)
    ensures CleanRevenue(CleanRevenue(s)) == CleanRevenue(s)
  {
    CleanRevenueKeepsPlainText(CleanRevenue(s));
  }

  /** Cleanup of a text seen one leading character at a time. */
  lemma CleanRevenueCons(c: char, s: string)
    ensures CleanRevenue([c] + s) == (if c == ',' || c == '$' then [] else [c]) + CleanRevenue(s)
  {
    CleanRevenueConcat([c], s);
    assert RemoveChar([c], ',') == if c == ',' then [] else [c];
  }

  /** A dollar amount with a thousands separator, such as "$45,678", cleans to its digits, "45678". */
  lemma CleanRevenueDollarAmount(thousands: string, units: string)
    requires ',' !in thousands && '$' !in thousands
    requires ',' !in units && '$' !in units
    ensures CleanRevenue("$" + thousands + "," + units) == thousands + units
  {
    var tail := [','] + units;
    assert "$" + thousands + "," + units == ['$'] + (thousands + tail);
    calc {
      CleanRevenue(['$'] + (thousands + tail));
      { CleanRevenueCons('$', thousands + tail); }
      CleanRevenue(thousands + tail);
      { CleanRevenueConcat(thousands, tail); }
      CleanRevenue(thousands) + CleanRevenue(tail);
      { CleanRevenueCons(',', units); }
      CleanRevenue(thousands) + CleanRevenue(units);
      { CleanRevenueKeepsPlainText(thousands); CleanRevenueKeepsPlainText(units); }
      thousands + units;
    }
  }

  /** One record after the column-wide replace: Date untouched, Revenue cleaned. */
  function CleanRow(row: RevenueRow): (r: RevenueRow)
    ensures r.date == row.date
    ensures ',' !in r.revenue && '$' !in r.revenue
  {
    row.(revenue := CleanRevenue(row.revenue))
  }

  /** The Revenue column after the two replace calls. */
  function StripRevenueColumn(rows: seq<RevenueRow>): (r: seq<RevenueRow>)
    ensures |r| == |rows|
    ensures forall i :: 0 <= i < |rows| ==> r[i] == CleanRow(rows[i])
  {
    if rows == [] then []
    else [CleanRow(rows[0])] + StripRevenueColumn(rows[1..])
  }

  /** The mask of the empty-revenue drop: the record's Revenue text is not empty. */
  predicate HasRevenue(row: RevenueRow)
    ensures HasRevenue(row) <==> |row.revenue| > 0
  {
    row.revenue != ""
  }

  /** Cleanup of the table: strip `,` and `$` from every Revenue, then keep the records whose Revenue is non-empty. */
  function CleanRevenueTable(rows: seq<RevenueRow>): (r: seq<RevenueRow>)
    ensures |r| <= |rows|
    ensures forall x :: x in r ==> x.revenue != "" && ',' !in x.revenue && '$' !in x.revenue
  {
    Filter(StripRevenueColumn(rows), HasRevenue)
  }

  /**
   * A record is in the cleaned table exactly when it is the cleaned form of
   * an input record whose cleaned revenue is non-empty.
   */
  lemma CleanRevenueTableMembers(rows: seq<RevenueRow>, x: RevenueRow)
    ensures x in CleanRevenueTable(rows) <==>
      x.revenue != "" && exists i :: 0 <= i < |rows| && x == CleanRow(rows[i])
  {
    var cleaned := StripRevenueColumn(rows);
    if x in cleaned {
      var i :| 0 <= i < |cleaned| && cleaned[i] == x;
      assert x == CleanRow(rows[i]);
    }
    if exists i :: 0 <= i < |rows| && x == CleanRow(rows[i]) {
      var i :| 0 <= i < |rows| && x == CleanRow(rows[i]);
      assert cleaned[i] == x;
    }
  }

  /** The column-wide replace works record by record. */
  lemma {:induction false} StripRevenueColumnConcat(a: seq<RevenueRow>, b: seq<RevenueRow>)
    ensures StripRevenueColumn(a + b) == StripRevenueColumn(a) + StripRevenueColumn(b)
  {
    if a == [] {
      assert a + b == b;
    } else {
      assert (a + b)[0] == a[0];
      assert (a + b)[1..] == a[1..] + b;
      StripRevenueColumnConcat(a[1..], b);
    }
  }

  /** Cleanup keeps the records it keeps in their original relative order. */
  lemma CleanRevenueTableConcat(a: seq<RevenueRow>, b: seq<RevenueRow>)
    ensures CleanRevenueTable(a + b) == CleanRevenueTable(a) + CleanRevenueTable(b)
  {
    StripRevenueColumnConcat(a, b);
    FilterConcat(StripRevenueColumn(a), StripRevenueColumn(b), HasRevenue);
  }

  /** Records whose cleaned revenue is non-empty are all kept, and nothing else is touched. */
  lemma CleanRevenueTableKeepsNonEmpty(rows: seq<RevenueRow>)
    requires forall i :: 0 <= i < |rows| ==> CleanRevenue(rows[i].revenue) != ""
    ensures CleanRevenueTable(rows) == StripRevenueColumn(rows)
  {
    FilterKeepsAll(StripRevenueColumn(rows), HasRevenue);
  }

  /** Text made only of separators and dollar signs cleans to the empty string. */
  lemma {:induction false} CleanRevenueOfSymbols(s: string)
    requires forall i :: 0 <= i < |s| ==> s[i] == ',' || s[i] == '$'
    ensures CleanRevenue(s) == ""
  {
    if s != [] {
      assert s == [s[0]] + s[1..];
      CleanRevenueCons(s[0], s[1..]);
      CleanRevenueOfSymbols(s[1..]);
    }
  }

  /** The cleaned table of one record: its cleaned form, or nothing when its revenue cleans to "". */
  lemma CleanRevenueTableSingle(row: RevenueRow)
    ensures CleanRevenueTable([row]) == if CleanRevenue(row.revenue) == "" then [] else [CleanRow(row)]
  {
    assert StripRevenueColumn([row]) == [CleanRow(row)];
  }

  /**
   * A row reading "$45,678" keeps its date and becomes "45678"; a row whose
   * revenue is made only of separators and dollar signs is dropped.
   */
  lemma CleanRevenueTableExample(date: string, thousands: string, units: string, blankDate: string, blank: string)
    requires ',' !in thousands && '$' !in thousands && ',' !in units && '$' !in units
    requires thousands + units != ""
    requires forall i :: 0 <= i < |blank| ==> blank[i] == ',' || blank[i] == '$'
    ensures CleanRevenueTable([RevenueRow(date, "$" + thousands + "," + units), RevenueRow(blankDate, blank)])
         == [RevenueRow(date, thousands + units)]
  {
    var dollars := RevenueRow(date, "$" + thousands + "," + units);
    var symbols := RevenueRow(blankDate, blank);
    CleanRevenueDollarAmount(thousands, units);
    CleanRevenueOfSymbols(blank);
    CleanRevenueTableSingle(dollars);
    CleanRevenueTableSingle(symbols);
    assert [dollars, symbols] == [dollars] + [symbols];
    CleanRevenueTableConcat([dollars], [symbols]);
  }
}
