/**
 * main: retrieve the revenue page, extract and clean its table, and build the
 * figure from the price history and the cleaned revenue.
 * The price history, the HTML parser and the cutoff date come in as
 * parameters: the market-data fetch, BeautifulSoup and the clock are not
 * part of this model.
 */
module Report {
  import opened Outcomes
  import opened Retrieval
  import opened Revenue
  import opened Chart

  method StockReport(server: nat -> Response, parse: string -> Page, prices: seq<PriceRow>,
                     stock: string, cutoff: string) returns (r: Result<Graph>)
    ensures !Succeeds(server) ==> r == Err(HtmlRetrievalError)
    ensures Succeeds(server) ==>
      var page := parse(LastBody(server));
      (|page| <= RevenueTableIndex ==> r == Err(MissingTableBody)) &&
      (r.Ok? <==> TableComplete(page)) &&
      (r.Ok? ==> r.value == MakeGraph(prices, CleanRevenueTable(TableRecords(page[RevenueTableIndex])), stock, cutoff))
    ensures Succeeds(server) && |parse(LastBody(server))| > RevenueTableIndex && r.Err? ==>
      var rows := parse(LastBody(server))[RevenueTableIndex];
      r.error.ShortRow? && r.error.row < |rows| && |rows[r.error.row]| < 2 &&
      forall j :: 0 <= j < r.error.row ==> |rows[j]| >= 2
  {
    var document, requests, sleeps := RetrieveHtml(server);
    if document.Err? {
      return Err(document.error);
    }
    var page := parse(document.value);
    var table := ExtractRevenue(page);
    if table.Err? {
      return Err(table.error);
    }
    var revenue := CleanRevenueTable(table.value);
    r := Ok(MakeGraph(prices, revenue, stock, cutoff));
  }
}
