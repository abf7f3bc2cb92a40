/** One worked day of the store: a product bought at 2.00 and sold at 5.00
    with 10 in stock, a cart of 3, the checkout, and that day's report. */
module Scenario {
  import opened Seqs
  import opened Db
  import opened Sales
  import opened Ledger
  import opened Reports

  function Catalog(): seq<Product> { [Product(1, "A", "", 200, 500, 0)] }

  function DayCart(): seq<CartEntry> { [CartEntry(1, "A", 500, 3)] }

  /** Adding 3 of the product to an empty cart captures its name and price 5.00. */
  lemma AddThree()
    ensures Added([], Catalog(), 1, 3) == DayCart()
  {
    assert CartIds([]) == [] && IndexOf(CartIds([]), 1).None?;
    assert ProductIds(Catalog()) == [1] && FindProduct(Catalog(), 1) == Some(0);
  }

  /** Selling that cart: the total is 15.00, the stock drops from 10 to 7 and
      the sale writes one line item of 3 at 5.00. */
  lemma OneSaleCheckout()
    ensures CartTotal(DayCart()) == 1500
    ensures StockAfterSale(map[1 := 10], DayCart()) == map[1 := 7]
    ensures LineItemsFor(DayCart(), 1, 1) == [LineItem(1, 1, 1, 3, 500)]
  {
    var cart := DayCart();
    assert cart[..0] == [];
    assert QuantityIn(cart, 1) == 3;
  }

  function DaySales(): seq<Sale> { [Sale(1, Midnight(20000) + 3600, 1500)] }
  function DayItems(): seq<LineItem> { [LineItem(1, 1, 1, 3, 500)] }

  lemma DayLines()
    ensures JoinedLines(DayItems(), Catalog(), DaySales(), Period(20000, 20000)) == [SoldLine("A", 3, 900)]
  {
    var items := DayItems();
    var sales := DaySales();
    assert items[..0] == [];
    assert ProductIds(Catalog()) == [1] && FindProduct(Catalog(), 1) == Some(0);
    assert SaleIds(sales) == [1] && IndexOf(SaleIds(sales), 1) == Some(0);
    assert InWindow(Period(20000, 20000), sales[0].time);
  }

  lemma DayRows()
    ensures GroupByName([SoldLine("A", 3, 900)]) == [ProductRow("A", 3, 900)]
  {
    var lines := [SoldLine("A", 3, 900)];
    assert lines[..0] == [] && GroupByName(lines[..0]) == [];
    assert RowNames([]) == [] && IndexOf(RowNames([]), "A").None?;
  }

  /** The report of that day: revenue 15.00, profit 3 x (5.00 - 2.00) = 9.00,
      one transaction, and the product on top of the quantity ranking. */
  lemma OneSaleReport()
    ensures var report := Report(Catalog(), map[1 := 7], DaySales(), DayItems(), 20000, 20000);
      && report.Some?
      && report.value.totalSales == 1500
      && report.value.totalProfit == 900
      && report.value.transactions == 1
      && report.value.mostSold == [ProductRow("A", 3, 900)]
  {
    var w := Period(20000, 20000);
    assert SalesTotal(DaySales(), w) == 1500;
    assert SalesCount(DaySales(), w) == 1;
    DayLines();
    DayRows();
    assert TotalProfit([SoldLine("A", 3, 900)]) == 900;
    var rows := [ProductRow("A", 3, 900)];
    assert SortDesc(rows, QuantityOf) == rows;
    assert Top(rows, RankingSize, QuantityOf) == rows;
  }
}
