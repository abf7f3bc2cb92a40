/** The dashboard: today's sales total, number of transactions, average
    ticket, and the five best-selling products of the day. The day is a
    parameter: the page passes today's date. */
module Dashboard {
  import opened Seqs
  import opened Db
  import opened Ledger

  /** The two day figures as the database returns them: `SUM` over no rows is
      NULL, so the total is absent exactly when there were no sales. */
  datatype DaySummary = DaySummary(total: Option<Cents>, transactions: nat)

  /** The sales of day `day`: the sum of their totals and how many there are. */
  function SalesOfDay(sales: seq<Sale>, day: int): (r: DaySummary)
    ensures r.transactions == SalesCount(sales, OnDay(day))
    ensures r.total.None? <==> forall i :: 0 <= i < |sales| ==> DateOf(sales[i].time) != day
    ensures r.total.Some? ==> r.total.value == SalesTotal(sales, OnDay(day))
  {
    SalesCountZero(sales, OnDay(day));
    var n := SalesCount(sales, OnDay(day));
    DaySummary(if n == 0 then None else Some(SalesTotal(sales, OnDay(day))), n)
  }

  /** Total divided by transactions, 0 when there were none. */
  function AverageTicket(s: DaySummary): (r: real)
    ensures s.transactions > 0 && s.total.Some? ==> r * s.transactions as real == s.total.value as real
    ensures s.transactions == 0 ==> r == 0.0
  {
    if s.transactions == 0 then 0.0
    else
      match s.total
      case None => 0.0
      case Some(total) => total as real / s.transactions as real
  }

  /** The average ticket of a day with sales lies between the smallest and the
      largest sale total of that day. */
  lemma TicketBounds(sales: seq<Sale>, day: int, lo: Cents, hi: Cents)
    requires forall i :: 0 <= i < |sales| && DateOf(sales[i].time) == day ==> lo <= sales[i].total <= hi
    requires SalesCount(sales, OnDay(day)) > 0
    ensures lo as real <= AverageTicket(SalesOfDay(sales, day)) <= hi as real
  {
    var s := SalesOfDay(sales, day);
    SalesTotalBounds(sales, OnDay(day), lo, hi);
    QuotientBetween(s.total.value, s.transactions, lo, hi);
  }

  /** An integer total between `lo * n` and `hi * n` divided by `n` lies between `lo` and `hi`. */
  lemma QuotientBetween(total: int, n: nat, lo: int, hi: int)
    requires n > 0 && lo * n <= total <= hi * n
    ensures lo as real <= total as real / n as real <= hi as real
  {
    var q := total as real / n as real;
    assert q * n as real == total as real;
    assert (lo * n) as real == lo as real * n as real;
    assert (hi * n) as real == hi as real * n as real;
  }

  /** The total card: the sum when there is one and it is not zero, "0"
      otherwise. */
  function DisplayedDayTotal(total: Option<Cents>): (shown: Cents)
    ensures total.None? ==> shown == 0
    ensures total.Some? ==> shown == total.value
  {
    match total
    case None => 0
    case Some(v) => if v != 0 then v else 0
  }

  /** What the total card shows is the day's sales sum, 0 on a day without sales. */
  lemma DisplayedDayTotalSpec(sales: seq<Sale>, day: int)
    ensures DisplayedDayTotal(SalesOfDay(sales, day).total) == SalesTotal(sales, OnDay(day))
  {
    SalesCountZero(sales, OnDay(day));
  }

  /** How many best sellers the dashboard lists. */
  const TopSellersSize: nat := 5

  /** `GROUP BY name ORDER BY sum(quantity) DESC LIMIT 5` over the day's line items. */
  function TopSellers(products: seq<Product>, sales: seq<Sale>, items: seq<LineItem>, day: int): seq<ProductRow> {
    Top(GroupByName(JoinedLines(items, products, sales, OnDay(day))), TopSellersSize, QuantityOf)
  }

  /** The best sellers: at most five rows, distinct product names each with the
      quantity sold under it that day, largest quantity first, and no name left
      out sold more than a name listed. */
  lemma TopSellersSpec(products: seq<Product>, sales: seq<Sale>, items: seq<LineItem>, day: int)
    ensures var top := TopSellers(products, sales, items, day);
      var lines := JoinedLines(items, products, sales, OnDay(day));
      var rows := GroupByName(lines);
      && |top| == Min(TopSellersSize, |rows|) <= TopSellersSize
      && NonIncreasing(top, QuantityOf)
      && multiset(top) <= multiset(rows)
      && Distinct(RowNames(top))
      && (forall x :: x in top ==> x.name in LineNames(lines) && x.quantity == NameQuantity(lines, x.name))
      && (forall x, y :: x in top && y in multiset(rows) - multiset(top) ==> y.quantity <= x.quantity)
      && (forall name :: name in LineNames(lines) ==> exists x :: x in rows && x.name == name)
  {
    var lines := JoinedLines(items, products, sales, OnDay(day));
    var rows := GroupByName(lines);
    var top := TopSellers(products, sales, items, day);
    TopExcluded(rows, TopSellersSize, QuantityOf);
    RowsAreGrouped(lines);
    GroupByNameSpec(lines);
    SubRowsDistinct(top, rows);
    forall x | x in top ensures x in rows {
      assert x in multiset(top);
    }
    forall name | name in LineNames(lines) ensures exists x :: x in rows && x.name == name {
      assert RowOf(rows, name).Some?;
      var k := IndexOf(RowNames(rows), name).value;
      assert rows[k] in rows && rows[k].name == name;
    }
  }
}
