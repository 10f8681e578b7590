/** The sales report page (components/admin/Reports.tsx): its totals and the CSV it exports. */
module Reports {
  import opened Wrappers
  import opened Seqs
  import opened Text

  /** One row of the sales report. */
  datatype SalesReportData = SalesReportData(period: string, totalSales: int, transactions: int)

  function SalesOf(d: SalesReportData): int {
    d.totalSales
  }

  function TransactionsOf(d: SalesReportData): int {
    d.transactions
  }

  /** `totalSales`: the rows' sales added up. */
  function TotalSales(rows: seq<SalesReportData>): int {
    SumOf(rows, SalesOf)
  }

  /** `totalTransactions`: the rows' transaction counts added up. */
  function TotalTransactions(rows: seq<SalesReportData>): int {
    SumOf(rows, TransactionsOf)
  }

  /** Both totals split over any division of the rows, so each row counts exactly once. */
  lemma TotalsSplit(a: seq<SalesReportData>, b: seq<SalesReportData>)
    ensures TotalSales(a + b) == TotalSales(a) + TotalSales(b)
    ensures TotalTransactions(a + b) == TotalTransactions(a) + TotalTransactions(b)
  {
    SumOfAppend(a, b, SalesOf);
    SumOfAppend(a, b, TransactionsOf);
  }

  /** Rows with no negative figures give totals no smaller than any one row's. */
  lemma {:induction false} TotalsBoundRows(rows: seq<SalesReportData>, k: nat)
    requires k < |rows|
    requires forall i :: 0 <= i < |rows| ==> rows[i].totalSales >= 0 && rows[i].transactions >= 0
    ensures TotalSales(rows) >= rows[k].totalSales && TotalTransactions(rows) >= rows[k].transactions
    decreases |rows|
  {
    var front := rows[..|rows| - 1];
    if k < |front| {
      TotalsBoundRows(front, k);
    } else {
      TotalsNonNegative(front);
    }
  }

  lemma {:induction false} TotalsNonNegative(rows: seq<SalesReportData>)
    requires forall i :: 0 <= i < |rows| ==> rows[i].totalSales >= 0 && rows[i].transactions >= 0
    ensures TotalSales(rows) >= 0 && TotalTransactions(rows) >= 0
    decreases |rows|
  {
    if rows != [] {
      TotalsNonNegative(rows[..|rows| - 1]);
    }
  }

  const HeaderLine: string := "Period,Total Sales,Transactions"

  /** `headers`, with its line break. */
  const CsvHeader: string := "Period,Total Sales,Transactions\n"

  /** One CSV line: `${period},${totalSales},${transactions}`, no quoting. */
  function CsvLine(d: SalesReportData): string {
    d.period + "," + IntToString(d.totalSales) + "," + IntToString(d.transactions)
  }

  /** The CSV text of `exportToCSV`; None when there are no rows and nothing is exported. */
  function ExportCsv(rows: seq<SalesReportData>): Option<string> {
    if rows == [] then None else Some(CsvHeader + Join(MapSeq(rows, CsvLine), "\n"))
  }

  /**
   * When no period holds a line break, the CSV has exactly one line per row after the header,
   * in row order, and no trailing empty line.
   */
  lemma CsvLines(rows: seq<SalesReportData>)
    requires rows != []
    requires forall i :: 0 <= i < |rows| ==> '\n' !in rows[i].period
    ensures ExportCsv(rows).Some?
    ensures Split(ExportCsv(rows).value, '\n') == [HeaderLine] + MapSeq(rows, CsvLine)
    ensures |Split(ExportCsv(rows).value, '\n')| == |rows| + 1
  {
    var lines := MapSeq(rows, CsvLine);
    var parts := [HeaderLine] + lines;
    assert parts[1..] == lines;
    assert Join(parts, "\n") == HeaderLine + "\n" + Join(lines, "\n");
    assert CsvHeader + Join(lines, "\n") == HeaderLine + "\n" + Join(lines, "\n");
    forall i | 0 <= i < |parts| ensures '\n' !in parts[i] {
      if i > 0 {
        var d := rows[i - 1];
        IntToStringHasNoSeparator(d.totalSales);
        IntToStringHasNoSeparator(d.transactions);
        assert parts[i] == CsvLine(d);
      }
    }
    SplitJoin(parts, '\n');
  }

  /** The three fields a row is written as. */
  function Fields(d: SalesReportData): seq<string> {
    [d.period, IntToString(d.totalSales), IntToString(d.transactions)]
  }

  lemma CsvLineIsJoin(d: SalesReportData)
    ensures CsvLine(d) == Join(Fields(d), ",")
  {
    var fields := Fields(d);
    assert fields[1..][1..] == [IntToString(d.transactions)];
    assert Join(fields[1..][1..], ",") == IntToString(d.transactions);
    assert Join(fields[1..], ",") == IntToString(d.totalSales) + "," + IntToString(d.transactions);
  }

  /**
   * A CSV line splits back on commas into the row's three fields exactly when the period holds
   * no comma: the fields are not quoted.
   */
  lemma CsvLineFields(d: SalesReportData)
    ensures Split(CsvLine(d), ',') == Fields(d) <==> ',' !in d.period
  {
    SplitHead(CsvLine(d), ',');
    if ',' !in d.period {
      IntToStringHasNoSeparator(d.totalSales);
      IntToStringHasNoSeparator(d.transactions);
      CsvLineIsJoin(d);
      SplitJoin(Fields(d), ',');
    }
  }

  /** The figures written into a line read back, with `parseFloat`, as the row's figures. */
  lemma CsvFiguresReadBack(d: SalesReportData)
    ensures ParseCash(Fields(d)[1]) == Some(d.totalSales)
    ensures ParseCash(Fields(d)[2]) == Some(d.transactions)
  {
    ParseCashIntToString(d.totalSales);
    ParseCashIntToString(d.transactions);
  }
}
