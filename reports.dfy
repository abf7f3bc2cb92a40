/** The reports page: daily sales over a date range, key figures of the
    period, the per-product ranking by quantity and by profit, and the
    comparison of current stock with what sold in the period. */
module Reports {
  import opened Seqs
  import opened Db
  import opened Ledger

  // ------------------------------------------------------------ daily totals

  /** One point of the daily-sales line: a date and the sum of its sales. */
  datatype DayRow = DayRow(date: int, total: Cents)

  /** Dates strictly ascending, hence each date at most once. */
  predicate StrictlyAscending(rows: seq<DayRow>) {
    forall i, j :: 0 <= i < j < |rows| ==> rows[i].date < rows[j].date
  }

  function RowDates(rows: seq<DayRow>): (dates: seq<int>)
    ensures |dates| == |rows| && forall i :: 0 <= i < |rows| ==> dates[i] == rows[i].date
  {
    seq(|rows|, i requires 0 <= i < |rows| => rows[i].date)
  }

  /** The amount the rows show for a date: the sum of the rows with that date. */
  function DayAmount(rows: seq<DayRow>, d: int): Cents {
    if rows == [] then 0
    else (if rows[0].date == d then rows[0].total else 0) + DayAmount(rows[1..], d)
  }

  function SumDays(rows: seq<DayRow>): Cents {
    if rows == [] then 0 else rows[0].total + SumDays(rows[1..])
  }

  lemma {:induction false} DayAmountAbsent(rows: seq<DayRow>, d: int)
    requires d !in RowDates(rows)
    ensures DayAmount(rows, d) == 0
  {
    if rows != [] {
      assert RowDates(rows[1..]) == RowDates(rows)[1..];
      DayAmountAbsent(rows[1..], d);
    }
  }

  /** In ascending rows the amount of a date is the total of the one row that has it. */
  lemma {:induction false} DayAmountRow(rows: seq<DayRow>, i: nat)
    requires StrictlyAscending(rows) && i < |rows|
    ensures DayAmount(rows, rows[i].date) == rows[i].total
  {
    var d := rows[i].date;
    if i == 0 {
      forall k | 0 <= k < |rows[1..]| ensures RowDates(rows[1..])[k] != d {
        assert rows[0].date < rows[k + 1].date;
      }
      DayAmountAbsent(rows[1..], d);
    } else {
      assert rows[0].date < d;
      DayAmountRow(rows[1..], i - 1);
    }
  }

  /** Adds one sale's total to its date's row, keeping the dates in order; a
      date with no row yet gets one in its place. */
  function AddToDay(rows: seq<DayRow>, d: int, amount: Cents): seq<DayRow> {
    if rows == [] then [DayRow(d, amount)]
    else if rows[0].date == d then [rows[0].(total := rows[0].total + amount)] + rows[1..]
    else if d < rows[0].date then [DayRow(d, amount)] + rows
    else [rows[0]] + AddToDay(rows[1..], d, amount)
  }

  /** Adding to a date raises that date's amount and no other. */
  lemma {:induction false} AddToDayAmount(rows: seq<DayRow>, d: int, amount: Cents, e: int)
    ensures DayAmount(AddToDay(rows, d, amount), e) == DayAmount(rows, e) + (if e == d then amount else 0)
  {
    var r := AddToDay(rows, d, amount);
    if rows == [] {
    } else if rows[0].date == d {
      assert r[1..] == rows[1..];
    } else if d < rows[0].date {
      assert r[1..] == rows;
    } else {
      assert r[1..] == AddToDay(rows[1..], d, amount);
      AddToDayAmount(rows[1..], d, amount, e);
    }
  }

  /** Adding to a date adds exactly that date to the dates shown. */
  lemma {:induction false} AddToDayDates(rows: seq<DayRow>, d: int, amount: Cents)
    ensures forall e :: e in RowDates(AddToDay(rows, d, amount)) <==> e in RowDates(rows) || e == d
  {
    var r := AddToDay(rows, d, amount);
    if rows == [] {
      assert RowDates(r) == [d];
    } else if rows[0].date == d {
      assert RowDates(r) == RowDates(rows);
    } else if d < rows[0].date {
      assert RowDates(r) == [d] + RowDates(rows);
    } else {
      var tail := AddToDay(rows[1..], d, amount);
      AddToDayDates(rows[1..], d, amount);
      assert RowDates(r) == [rows[0].date] + RowDates(tail);
      assert RowDates(rows) == [rows[0].date] + RowDates(rows[1..]);
    }
  }

  lemma {:induction false} AddToDaySum(rows: seq<DayRow>, d: int, amount: Cents)
    ensures SumDays(AddToDay(rows, d, amount)) == SumDays(rows) + amount
  {
    var r := AddToDay(rows, d, amount);
    if rows == [] {
    } else if rows[0].date == d {
      assert r[1..] == rows[1..];
    } else if d < rows[0].date {
      assert r[1..] == rows;
    } else {
      assert r[1..] == AddToDay(rows[1..], d, amount);
      AddToDaySum(rows[1..], d, amount);
    }
  }

  /** Adding to a date keeps the dates strictly ascending; the first date
      shown is either the old first date or the added one. */
  lemma {:induction false} AddToDayAscending(rows: seq<DayRow>, d: int, amount: Cents)
    requires StrictlyAscending(rows)
    ensures StrictlyAscending(AddToDay(rows, d, amount))
    ensures rows != [] ==> AddToDay(rows, d, amount)[0].date in {rows[0].date, d}
  {
    var r := AddToDay(rows, d, amount);
    if rows != [] && rows[0].date != d && d >= rows[0].date {
      var tail := AddToDay(rows[1..], d, amount);
      AddToDayAscending(rows[1..], d, amount);
      AddToDayDates(rows[1..], d, amount);
      assert r[1..] == tail;
      forall j | 0 < j < |r| ensures r[0].date < r[j].date {
        assert r[j].date in RowDates(tail) by { assert RowDates(tail)[j - 1] == r[j].date; }
        if r[j].date != d {
          var m :| 0 <= m < |rows[1..]| && RowDates(rows[1..])[m] == r[j].date;
          assert rows[m + 1].date == r[j].date;
        }
      }
    }
  }

  /** Total of the sales in the window whose timestamp falls on date `d`. */
  function SalesOnDate(sales: seq<Sale>, w: Window, d: int): Cents {
    if sales == [] then 0
    else
      var last := sales[|sales| - 1];
      SalesOnDate(sales[..|sales| - 1], w, d)
        + (if InWindow(w, last.time) && DateOf(last.time) == d then last.total else 0)
  }

  /** `SELECT date(t), sum(total) ... GROUP BY date ORDER BY date`: one row per
      date on which a sale in the window happened, in ascending date order,
      holding the sum of that date's sales; together they add up to the total
      of the window. */
  function Daily(sales: seq<Sale>, w: Window): (r: seq<DayRow>)
    ensures StrictlyAscending(r)
    ensures forall d :: DayAmount(r, d) == SalesOnDate(sales, w, d)
    ensures forall d :: d in RowDates(r) <==>
      exists i :: 0 <= i < |sales| && InWindow(w, sales[i].time) && DateOf(sales[i].time) == d
    ensures SumDays(r) == SalesTotal(sales, w)
  {
    if sales == [] then []
    else
      var n := |sales| - 1;
      var init := sales[..n];
      var last := sales[n];
      var rest := Daily(init, w);
      var r := if InWindow(w, last.time) then AddToDay(rest, DateOf(last.time), last.total) else rest;
      AddToDayDates(rest, DateOf(last.time), last.total);
      AddToDaySum(rest, DateOf(last.time), last.total);
      AddToDayAscending(rest, DateOf(last.time), last.total);
      assert forall d :: DayAmount(r, d) == SalesOnDate(sales, w, d) by {
        forall d ensures DayAmount(r, d) == SalesOnDate(sales, w, d) {
          AddToDayAmount(rest, DateOf(last.time), last.total, d);
        }
      }
      assert forall d :: d in RowDates(r) <==>
        exists i :: 0 <= i < |sales| && InWindow(w, sales[i].time) && DateOf(sales[i].time) == d
      by {
        forall d ensures d in RowDates(r) <==>
          exists i :: 0 <= i < |sales| && InWindow(w, sales[i].time) && DateOf(sales[i].time) == d
        {
          if exists i :: 0 <= i < |sales| && InWindow(w, sales[i].time) && DateOf(sales[i].time) == d {
            var i :| 0 <= i < |sales| && InWindow(w, sales[i].time) && DateOf(sales[i].time) == d;
            if i < n {
              assert init[i] == sales[i];
            }
          }
          if exists i :: 0 <= i < |init| && InWindow(w, init[i].time) && DateOf(init[i].time) == d {
            var i :| 0 <= i < |init| && InWindow(w, init[i].time) && DateOf(init[i].time) == d;
            assert sales[i] == init[i];
          }
        }
      }
      r
  }

  // ------------------------------------------------------------ the report

  /** A row of the comparison table: a stocked product's name, its current
      stock and the quantity sold under that name in the period. */
  datatype ComparisonRow = ComparisonRow(name: string, stock: int, sold: int)

  function SoldOf(c: ComparisonRow): int { c.sold }

  /** `productos JOIN inventario`: the products that have an inventory row,
      in catalog order, each as often as it occurs in the catalog. */
  function Stocked(products: seq<Product>, inventory: map<ProductId, int>): (r: seq<Product>)
    ensures IsSubsequence(r, products)
    ensures forall p :: multiset(r)[p] == if p.id in inventory then multiset(products)[p] else 0
    ensures forall p :: p in r ==> p.id in inventory
  {
    if products == [] then []
    else
      var init := products[..|products| - 1];
      var p := products[|products| - 1];
      assert products == init + [p];
      var rest := Stocked(init, inventory);
      if p.id in inventory then
        assert rest + [p] == (rest + [p])[..|rest|] + [p];
        rest + [p]
      else rest
  }

  /** One comparison row per stocked product, in the same order: its name, its
      stock and the period's sold quantity of its name (0 when its name sold
      nothing). */
  function StockLines(products: seq<Product>, inventory: map<ProductId, int>, rows: seq<ProductRow>): (r: seq<ComparisonRow>)
    ensures var stocked := Stocked(products, inventory);
      && |r| == |stocked|
      && forall i :: 0 <= i < |r| ==>
           r[i] == ComparisonRow(stocked[i].name, inventory[stocked[i].id], SoldFor(rows, stocked[i].name))
  {
    if products == [] then []
    else
      var init := products[..|products| - 1];
      var p := products[|products| - 1];
      assert products == init + [p];
      var rest := StockLines(init, inventory, rows);
      if p.id in inventory then rest + [ComparisonRow(p.name, inventory[p.id], SoldFor(rows, p.name))]
      else rest
  }

  /** A comparison row occurs exactly when some catalog product with an
      inventory row gives it. */
  lemma StockLinesMembers(products: seq<Product>, inventory: map<ProductId, int>, rows: seq<ProductRow>)
    ensures forall c :: c in StockLines(products, inventory, rows) <==>
      exists p :: p in products && p.id in inventory && c == ComparisonRow(p.name, inventory[p.id], SoldFor(rows, p.name))
  {
    var stocked := Stocked(products, inventory);
    var r := StockLines(products, inventory, rows);
    forall c | c in r
      ensures exists p :: p in products && p.id in inventory && c == ComparisonRow(p.name, inventory[p.id], SoldFor(rows, p.name))
    {
      var i :| 0 <= i < |r| && r[i] == c;
      var p := stocked[i];
      assert multiset(stocked)[p] > 0;
      assert p in products && p.id in inventory;
    }
    forall p | p in products && p.id in inventory
      ensures ComparisonRow(p.name, inventory[p.id], SoldFor(rows, p.name)) in r
    {
      assert multiset(stocked)[p] > 0;
      var i :| 0 <= i < |stocked| && stocked[i] == p;
      assert r[i] == ComparisonRow(p.name, inventory[p.id], SoldFor(rows, p.name));
    }
  }

  /** Everything the page shows for a valid period. */
  datatype PeriodReport = PeriodReport(
    daily: seq<DayRow>,
    totalSales: Cents,
    totalProfit: Cents,
    transactions: nat,
    products: seq<ProductRow>,
    mostSold: seq<ProductRow>,
    mostProfitable: seq<ProductRow>,
    comparison: seq<ComparisonRow>)

  /** The top-N size of both rankings. */
  const RankingSize: nat := 10

  /** The report for the dates `start..end` (sales from midnight of `start` up
      to midnight after `end`); no report when the start comes after the end. */
  function Report(products: seq<Product>, inventory: map<ProductId, int>, sales: seq<Sale>,
                  items: seq<LineItem>, start: int, end: int): (r: Option<PeriodReport>)
    ensures r.None? <==> start > end
    ensures r.Some? ==> r.value.totalSales == SalesTotal(sales, Period(start, end))
    ensures r.Some? ==> r.value.totalProfit == TotalProfit(JoinedLines(items, products, sales, Period(start, end)))
    ensures r.Some? ==> r.value.transactions == SalesCount(sales, Period(start, end))
  {
    if start > end then None
    else
      var w := Period(start, end);
      var daily := Daily(sales, w);
      var lines := JoinedLines(items, products, sales, w);
      var rows := GroupByName(lines);
      GroupByNameSpec(lines);
      Some(PeriodReport(
        daily,
        if daily == [] then 0 else SumDays(daily),
        if rows == [] then 0 else SumProfit(rows),
        SalesCount(sales, w),
        rows,
        Top(rows, RankingSize, QuantityOf),
        Top(rows, RankingSize, ProfitOf),
        SortDesc(StockLines(products, inventory, rows), SoldOf)))
  }

  /** The product table and both rankings: one row per product name sold in
      the period with its quantity and profit; the rankings show at most ten
      of those rows, best first, and no row left out beats a row shown. */
  lemma ReportRankings(products: seq<Product>, inventory: map<ProductId, int>, sales: seq<Sale>,
                       items: seq<LineItem>, start: int, end: int)
    requires start <= end
    ensures var rep := Report(products, inventory, sales, items, start, end).value;
      var lines := JoinedLines(items, products, sales, Period(start, end));
      && Distinct(RowNames(rep.products))
      && (forall name :: RowOf(rep.products, name) == Grouped(lines, name))
      && |rep.mostSold| == Min(RankingSize, |rep.products|)
      && NonIncreasing(rep.mostSold, QuantityOf)
      && multiset(rep.mostSold) <= multiset(rep.products)
      && (forall x, y :: x in rep.mostSold && y in multiset(rep.products) - multiset(rep.mostSold) ==>
            y.quantity <= x.quantity)
      && |rep.mostProfitable| == Min(RankingSize, |rep.products|)
      && NonIncreasing(rep.mostProfitable, ProfitOf)
      && multiset(rep.mostProfitable) <= multiset(rep.products)
      && (forall x, y :: x in rep.mostProfitable && y in multiset(rep.products) - multiset(rep.mostProfitable) ==>
            y.profit <= x.profit)
  {
    var rep := Report(products, inventory, sales, items, start, end).value;
    var lines := JoinedLines(items, products, sales, Period(start, end));
    GroupByNameSpec(lines);
    TopExcluded(rep.products, RankingSize, QuantityOf);
    TopExcluded(rep.products, RankingSize, ProfitOf);
  }

  /** The comparison table: one row per product that has an inventory row, with
      its current stock and the quantity its name sold in the period (0 when it
      sold nothing), ordered by that quantity, largest first. */
  lemma ComparisonSpec(products: seq<Product>, inventory: map<ProductId, int>, sales: seq<Sale>,
                       items: seq<LineItem>, start: int, end: int)
    requires start <= end
    ensures var rep := Report(products, inventory, sales, items, start, end).value;
      var lines := JoinedLines(items, products, sales, Period(start, end));
      && NonIncreasing(rep.comparison, SoldOf)
      && multiset(rep.comparison) == multiset(StockLines(products, inventory, rep.products))
      && |rep.comparison| == |Stocked(products, inventory)|
      && (forall c :: c in rep.comparison <==>
            exists p :: p in products && p.id in inventory && c == ComparisonRow(p.name, inventory[p.id], NameQuantity(lines, p.name)))
  {
    var rep := Report(products, inventory, sales, items, start, end).value;
    var lines := JoinedLines(items, products, sales, Period(start, end));
    var stock := StockLines(products, inventory, rep.products);
    assert multiset(rep.comparison) == multiset(stock);
    assert |rep.comparison| == |multiset(stock)|;
    StockLinesMembers(products, inventory, rep.products);
    forall p: Product ensures SoldFor(rep.products, p.name) == NameQuantity(lines, p.name) {
      SoldForSpec(lines, p.name);
    }
    forall c ensures c in rep.comparison <==> c in stock {
      assert c in rep.comparison <==> c in multiset(rep.comparison);
      assert c in stock <==> c in multiset(stock);
    }
  }
}
