/** Read-side queries over the sale ledger shared by the reports and the
    dashboard: time windows, sums over the sales in a window, and the
    line-item / product / sale join grouped by product name. */
module Ledger {
  import opened Seqs
  import opened Db

  /** The three filters the pages put on a sale's (or expense's) timestamp.
      Dates are day numbers. A timestamp is stored as text with its time of
      day, and a date bound is compared with it as text, so `t >= d` holds
      from midnight of `d` on and `t <= d` only before midnight of `d`. */
  datatype Window =
    | Period(start: int, end: int)   // reports: start <= t <= end + 1 day
    | OnDay(day: int)                // dashboard: date(t) == day
    | Between(start: int, end: int)  // cash flow: start <= t <= end

  predicate InWindow(w: Window, t: Time) {
    match w
    case Period(s, e) => Midnight(s) <= t < Midnight(e + 1)
    case OnDay(d) => DateOf(t) == d
    case Between(s, e) => Midnight(s) <= t < Midnight(e)
  }

  /** The reports' period holds exactly the timestamps dated `start` through `end`;
      the cash-flow range stops before the end date. */
  lemma WindowDates(w: Window, t: Time)
    ensures w.Period? ==> (InWindow(w, t) <==> w.start <= DateOf(t) <= w.end)
    ensures w.Between? ==> (InWindow(w, t) <==> w.start <= DateOf(t) < w.end)
  {
    var d := DateOf(t);
    assert Midnight(d) <= t < Midnight(d + 1);
    if w.Period? || w.Between? {
      MidnightMonotone(w.start, d);
      MidnightMonotone(d + 1, w.start);
      MidnightMonotone(d + 1, w.end);
      MidnightMonotone(w.end, d);
      MidnightMonotone(d + 1, w.end + 1);
      MidnightMonotone(w.end + 1, d);
    }
  }

  lemma MidnightMonotone(a: int, b: int)
    ensures a <= b <==> Midnight(a) <= Midnight(b)
  {
  }

  /** Totals over two windows that hold the same timestamps are equal. */
  lemma {:induction false} SalesTotalSameWindow(sales: seq<Sale>, w1: Window, w2: Window)
    requires forall t :: InWindow(w1, t) <==> InWindow(w2, t)
    ensures SalesTotal(sales, w1) == SalesTotal(sales, w2)
    ensures SalesCount(sales, w1) == SalesCount(sales, w2)
  {
    if sales != [] {
      SalesTotalSameWindow(sales[..|sales| - 1], w1, w2);
    }
  }

  /** Sum of the totals of the sales in the window (0 when there are none). */
  function SalesTotal(sales: seq<Sale>, w: Window): Cents {
    if sales == [] then 0
    else
      var last := sales[|sales| - 1];
      SalesTotal(sales[..|sales| - 1], w) + (if InWindow(w, last.time) then last.total else 0)
  }

  /** Number of sales in the window. */
  function SalesCount(sales: seq<Sale>, w: Window): nat {
    if sales == [] then 0
    else
      var last := sales[|sales| - 1];
      SalesCount(sales[..|sales| - 1], w) + (if InWindow(w, last.time) then 1 else 0)
  }

  /** No sale counts exactly when no sale lies in the window, and then the
      window's total is 0. */
  lemma {:induction false} SalesCountZero(sales: seq<Sale>, w: Window)
    ensures SalesCount(sales, w) == 0 <==> forall i :: 0 <= i < |sales| ==> !InWindow(w, sales[i].time)
    ensures SalesCount(sales, w) == 0 ==> SalesTotal(sales, w) == 0
  {
    if sales != [] {
      var init := sales[..|sales| - 1];
      SalesCountZero(init, w);
      assert forall i :: 0 <= i < |init| ==> init[i] == sales[i];
    }
  }

  /** When every sale in the window totals between `lo` and `hi`, the window's
      total lies between `lo` and `hi` times the number of sales. */
  lemma {:induction false} SalesTotalBounds(sales: seq<Sale>, w: Window, lo: Cents, hi: Cents)
    requires forall i :: 0 <= i < |sales| && InWindow(w, sales[i].time) ==> lo <= sales[i].total <= hi
    ensures lo * SalesCount(sales, w) <= SalesTotal(sales, w) <= hi * SalesCount(sales, w)
  {
    if sales != [] {
      var init := sales[..|sales| - 1];
      assert forall i :: 0 <= i < |init| ==> init[i] == sales[i];
      SalesTotalBounds(init, w, lo, hi);
      var last := sales[|sales| - 1];
      var added := if InWindow(w, last.time) then 1 else 0;
      BoundsStep(SalesCount(init, w), SalesTotal(init, w), added, if added == 1 then last.total else 0, lo, hi);
    }
  }

  /** One more sale of total between `lo` and `hi` (or none) keeps `total` between
      `lo` and `hi` times the count. */
  lemma BoundsStep(count: int, total: int, added: int, amount: int, lo: int, hi: int)
    requires lo * count <= total <= hi * count
    requires (added == 0 && amount == 0) || (added == 1 && lo <= amount <= hi)
    ensures lo * (count + added) <= total + amount <= hi * (count + added)
  {
    assert lo * (count + added) == lo * count + lo * added;
    assert hi * (count + added) == hi * count + hi * added;
  }

  // ------------------------------------------------------------ product join

  /** One joined row: the product's current name, the quantity sold and the
      margin at the product's current catalog prices. */
  datatype SoldLine = SoldLine(name: string, quantity: int, profit: Cents)

  /** Line items joined with their product and their sale, kept when the sale
      is in the window. Profit is quantity times (current sale price - current
      purchase price); the unit price stored on the line item is not used. A
      line item whose product or sale no longer exists drops out of the join. */
  function JoinedLines(items: seq<LineItem>, products: seq<Product>, sales: seq<Sale>, w: Window): (r: seq<SoldLine>)
    ensures |r| <= |items|
  {
    if items == [] then []
    else
      var it := items[|items| - 1];
      var rest := JoinedLines(items[..|items| - 1], products, sales, w);
      match (FindProduct(products, it.productId), IndexOf(SaleIds(sales), it.saleId))
      case (Some(j), Some(k)) =>
        if InWindow(w, sales[k].time) then rest + [Line(it, products[j])] else rest
      case _ => rest
  }

  /** Every joined line comes from a line item, the product it names and its
      sale, which lies in the window. */
  lemma {:induction false} JoinedLinesSound(items: seq<LineItem>, products: seq<Product>, sales: seq<Sale>, w: Window)
    ensures forall l :: l in JoinedLines(items, products, sales, w) ==> exists i, j, k ::
      0 <= i < |items| && 0 <= j < |products| && 0 <= k < |sales| && JoinsTo(items[i], products[j], sales[k], w, l)
  {
    if items != [] {
      var n := |items| - 1;
      var it := items[n];
      JoinedLinesSound(items[..n], products, sales, w);
      assert forall i :: 0 <= i < n ==> items[..n][i] == items[i];
      match (FindProduct(products, it.productId), IndexOf(SaleIds(sales), it.saleId))
      case (Some(j), Some(k)) =>
        if InWindow(w, sales[k].time) {
          assert JoinsTo(items[n], products[j], sales[k], w, Line(it, products[j]));
        }
      case _ =>
    }
  }

  /** Every line item whose product and sale exist, with the sale in the
      window, contributes its line to the join. */
  lemma {:induction false} JoinedLinesComplete(items: seq<LineItem>, products: seq<Product>, sales: seq<Sale>, w: Window)
    ensures forall i, j, k ::
      && 0 <= i < |items|
      && FindProduct(products, items[i].productId) == Some(j)
      && IndexOf(SaleIds(sales), items[i].saleId) == Some(k)
      && InWindow(w, sales[k].time)
      ==> Line(items[i], products[j]) in JoinedLines(items, products, sales, w)
  {
    forall i, j, k |
      && 0 <= i < |items|
      && FindProduct(products, items[i].productId) == Some(j)
      && IndexOf(SaleIds(sales), items[i].saleId) == Some(k)
      && InWindow(w, sales[k].time)
      ensures Line(items[i], products[j]) in JoinedLines(items, products, sales, w)
    {
      JoinedLineOf(items, products, sales, w, i, j, k);
    }
  }

  lemma {:induction false} JoinedLineOf(items: seq<LineItem>, products: seq<Product>, sales: seq<Sale>, w: Window,
                                        i: nat, j: nat, k: nat)
    requires i < |items|
    requires FindProduct(products, items[i].productId) == Some(j)
    requires IndexOf(SaleIds(sales), items[i].saleId) == Some(k)
    requires InWindow(w, sales[k].time)
    ensures Line(items[i], products[j]) in JoinedLines(items, products, sales, w)
  {
    var n := |items| - 1;
    if i < n {
      assert items[..n][i] == items[i];
      JoinedLineOf(items[..n], products, sales, w, i, j, k);
    }
  }

  /** Line item `it` takes part in the join: its product and its sale exist
      and the sale is in the window. */
  predicate Joins(it: LineItem, products: seq<Product>, sales: seq<Sale>, w: Window) {
    && FindProduct(products, it.productId).Some?
    && IndexOf(SaleIds(sales), it.saleId).Some?
    && InWindow(w, sales[IndexOf(SaleIds(sales), it.saleId).value].time)
  }

  /** The line items that take part in the join, in order, each as often as
      it occurs. */
  function Joinable(items: seq<LineItem>, products: seq<Product>, sales: seq<Sale>, w: Window): (r: seq<LineItem>)
    ensures IsSubsequence(r, items)
    ensures forall it :: multiset(r)[it] == if Joins(it, products, sales, w) then multiset(items)[it] else 0
    ensures forall i :: 0 <= i < |r| ==> Joins(r[i], products, sales, w)
  {
    if items == [] then []
    else
      var init := items[..|items| - 1];
      var it := items[|items| - 1];
      assert items == init + [it];
      var rest := Joinable(init, products, sales, w);
      if Joins(it, products, sales, w) then
        assert rest + [it] == (rest + [it])[..|rest|] + [it];
        rest + [it]
      else rest
  }

  /** The join holds exactly one line per joinable line item, in order: the
      line of that item and the product it names. */
  lemma {:induction false} JoinedLinesExact(items: seq<LineItem>, products: seq<Product>, sales: seq<Sale>, w: Window)
    ensures var r := JoinedLines(items, products, sales, w);
      var q := Joinable(items, products, sales, w);
      && |r| == |q|
      && forall i :: 0 <= i < |r| ==> r[i] == Line(q[i], products[FindProduct(products, q[i].productId).value])
  {
    if items != [] {
      var init := items[..|items| - 1];
      var it := items[|items| - 1];
      JoinedLinesExact(init, products, sales, w);
      var rest := JoinedLines(init, products, sales, w);
      var q := Joinable(init, products, sales, w);
      JoinLast(items, products, sales, w);
      if Joins(it, products, sales, w) {
        var j := FindProduct(products, it.productId).value;
        JoinStep(rest, q, Line(it, products[j]), it, products);
      }
    }
  }

  /** Unfolding the join and the joinable items at the last line item. */
  lemma JoinLast(items: seq<LineItem>, products: seq<Product>, sales: seq<Sale>, w: Window)
    requires items != []
    ensures var init := items[..|items| - 1];
      var it := items[|items| - 1];
      if Joins(it, products, sales, w) then
        && JoinedLines(items, products, sales, w)
           == JoinedLines(init, products, sales, w) + [Line(it, products[FindProduct(products, it.productId).value])]
        && Joinable(items, products, sales, w) == Joinable(init, products, sales, w) + [it]
      else
        && JoinedLines(items, products, sales, w) == JoinedLines(init, products, sales, w)
        && Joinable(items, products, sales, w) == Joinable(init, products, sales, w)
  {
  }

  lemma JoinStep(rest: seq<SoldLine>, q: seq<LineItem>, l: SoldLine, it: LineItem, products: seq<Product>)
    requires |rest| == |q|
    requires forall i :: 0 <= i < |q| ==> FindProduct(products, q[i].productId).Some?
    requires forall i :: 0 <= i < |rest| ==> rest[i] == Line(q[i], products[FindProduct(products, q[i].productId).value])
    requires FindProduct(products, it.productId).Some?
    requires l == Line(it, products[FindProduct(products, it.productId).value])
    ensures var r := rest + [l];
      var q' := q + [it];
      forall i :: 0 <= i < |r| ==> r[i] == Line(q'[i], products[FindProduct(products, q'[i].productId).value])
  {
  }

  /** The joined line of a line item and its product. */
  function Line(it: LineItem, p: Product): SoldLine {
    SoldLine(p.name, it.quantity, it.quantity * (p.salePrice - p.purchasePrice))
  }

  /** Line `l` joins line item `it` with its product `p` and its sale `s`, which is in the window. */
  predicate JoinsTo(it: LineItem, p: Product, s: Sale, w: Window, l: SoldLine) {
    it.productId == p.id && it.saleId == s.id && InWindow(w, s.time) && l == Line(it, p)
  }

  function LineNames(lines: seq<SoldLine>): (names: seq<string>)
    ensures |names| == |lines| && forall i :: 0 <= i < |lines| ==> names[i] == lines[i].name
  {
    seq(|lines|, i requires 0 <= i < |lines| => lines[i].name)
  }

  /** Quantity sold under one product name. */
  function NameQuantity(lines: seq<SoldLine>, name: string): int {
    if lines == [] then 0
    else
      var last := lines[|lines| - 1];
      NameQuantity(lines[..|lines| - 1], name) + (if last.name == name then last.quantity else 0)
  }

  /** Profit made under one product name. */
  function NameProfit(lines: seq<SoldLine>, name: string): Cents {
    if lines == [] then 0
    else
      var last := lines[|lines| - 1];
      NameProfit(lines[..|lines| - 1], name) + (if last.name == name then last.profit else 0)
  }

  function TotalProfit(lines: seq<SoldLine>): Cents {
    if lines == [] then 0 else TotalProfit(lines[..|lines| - 1]) + lines[|lines| - 1].profit
  }

  lemma {:induction false} AbsentName(lines: seq<SoldLine>, name: string)
    requires name !in LineNames(lines)
    ensures NameQuantity(lines, name) == 0 && NameProfit(lines, name) == 0
  {
    if lines != [] {
      var init := lines[..|lines| - 1];
      assert LineNames(lines) == LineNames(init) + [lines[|lines| - 1].name];
      AbsentName(init, name);
    }
  }

  // ------------------------------------------------------------ group by name

  /** A row of the per-product report: name, quantity sold, profit. */
  datatype ProductRow = ProductRow(name: string, quantity: int, profit: Cents)

  function QuantityOf(r: ProductRow): int { r.quantity }
  function ProfitOf(r: ProductRow): int { r.profit }

  function RowNames(rows: seq<ProductRow>): (names: seq<string>)
    ensures |names| == |rows| && forall i :: 0 <= i < |rows| ==> names[i] == rows[i].name
  {
    seq(|rows|, i requires 0 <= i < |rows| => rows[i].name)
  }

  /** Rows drawn (as a sub-multiset) from rows with distinct names have
      distinct names too: a name can be neither repeated nor shared. */
  lemma SubRowsDistinct(top: seq<ProductRow>, rows: seq<ProductRow>)
    requires multiset(top) <= multiset(rows) && Distinct(RowNames(rows))
    ensures Distinct(RowNames(top))
  {
    forall i, j | 0 <= i < j < |top| ensures RowNames(top)[i] != RowNames(top)[j] {
      if top[i].name == top[j].name {
        assert top[i] in multiset(rows) && top[j] in multiset(rows);
        var a :| 0 <= a < |rows| && rows[a] == top[i];
        var b :| 0 <= b < |rows| && rows[b] == top[j];
        assert RowNames(rows)[a] == RowNames(rows)[b];
        TwiceInSeq(top, i, j);
        OnceInRows(rows, a);
        assert false;
      }
    }
  }

  /** An element at two positions occurs at least twice. */
  lemma TwiceInSeq(s: seq<ProductRow>, i: nat, j: nat)
    requires i < j < |s| && s[i] == s[j]
    ensures multiset(s)[s[i]] >= 2
  {
    assert s == s[..j] + s[j..];
    assert s[i] in s[..j];
    assert s[j] in s[j..];
  }

  /** With distinct names, a row occurs exactly once. */
  lemma OnceInRows(rows: seq<ProductRow>, a: nat)
    requires a < |rows| && Distinct(RowNames(rows))
    ensures multiset(rows)[rows[a]] == 1
  {
    var x := rows[a];
    assert rows == rows[..a] + [x] + rows[a + 1..];
    assert x !in rows[..a] && x !in rows[a + 1..];
  }

  /** The report row for a name, if there is one. */
  function RowOf(rows: seq<ProductRow>, name: string): Option<ProductRow> {
    match IndexOf(RowNames(rows), name)
    case None => None
    case Some(k) => Some(rows[k])
  }

  function SumProfit(rows: seq<ProductRow>): Cents {
    if rows == [] then 0 else SumProfit(rows[..|rows| - 1]) + rows[|rows| - 1].profit
  }

  lemma {:induction false} SumProfitAppend(a: seq<ProductRow>, b: seq<ProductRow>)
    ensures SumProfit(a + b) == SumProfit(a) + SumProfit(b)
  {
    if b == [] {
      assert a + b == a;
    } else {
      var n := |b| - 1;
      assert (a + b)[..|a + b| - 1] == a + b[..n];
      SumProfitAppend(a, b[..n]);
    }
  }

  lemma SumProfitUpdate(rows: seq<ProductRow>, k: nat, v: ProductRow)
    requires k < |rows|
    ensures SumProfit(rows[k := v]) == SumProfit(rows) - rows[k].profit + v.profit
  {
    var r := rows[k := v];
    assert rows == rows[..k] + [rows[k]] + rows[k + 1..];
    assert r == rows[..k] + [v] + rows[k + 1..];
    SumProfitAppend(rows[..k] + [rows[k]], rows[k + 1..]);
    SumProfitAppend(rows[..k], [rows[k]]);
    SumProfitAppend(rows[..k] + [v], rows[k + 1..]);
    SumProfitAppend(rows[..k], [v]);
    assert [v][..0] == [] && [rows[k]][..0] == [];
  }

  /** Folds one joined line into the grouped rows: the row of its name grows, or
      a new row for the name is appended. */
  function MergeLine(rows: seq<ProductRow>, l: SoldLine): seq<ProductRow> {
    match IndexOf(RowNames(rows), l.name)
    case Some(k) => rows[k := ProductRow(l.name, rows[k].quantity + l.quantity, rows[k].profit + l.profit)]
    case None => rows + [ProductRow(l.name, l.quantity, l.profit)]
  }

  /** `GROUP BY name` with the quantity and profit summed; rows in order of
      each name's first appearance. */
  function GroupByName(lines: seq<SoldLine>): seq<ProductRow> {
    if lines == [] then []
    else MergeLine(GroupByName(lines[..|lines| - 1]), lines[|lines| - 1])
  }

  /** What the grouped report holds, given its joined lines. */
  function Grouped(lines: seq<SoldLine>, name: string): Option<ProductRow> {
    if name in LineNames(lines) then Some(ProductRow(name, NameQuantity(lines, name), NameProfit(lines, name)))
    else None
  }

  lemma GroupedStep(init: seq<SoldLine>, l: SoldLine, name: string)
    ensures name != l.name ==> Grouped(init + [l], name) == Grouped(init, name)
    ensures name == l.name ==>
      Grouped(init + [l], name) ==
      Some(ProductRow(name, NameQuantity(init, name) + l.quantity, NameProfit(init, name) + l.profit))
  {
    var lines := init + [l];
    assert lines[..|lines| - 1] == init;
    assert LineNames(lines) == LineNames(init) + [l.name];
  }

  lemma MergeExisting(rows: seq<ProductRow>, init: seq<SoldLine>, l: SoldLine, k: nat)
    requires Distinct(RowNames(rows))
    requires forall name :: RowOf(rows, name) == Grouped(init, name)
    requires IndexOf(RowNames(rows), l.name) == Some(k)
    ensures Distinct(RowNames(MergeLine(rows, l)))
    ensures forall name :: RowOf(MergeLine(rows, l), name) == Grouped(init + [l], name)
    ensures SumProfit(MergeLine(rows, l)) == SumProfit(rows) + l.profit
  {
    var names := RowNames(rows);
    var r := MergeLine(rows, l);
    assert RowNames(r) == names;
    assert RowOf(rows, l.name) == Some(rows[k]);
    forall name ensures RowOf(r, name) == Grouped(init + [l], name) {
      GroupedStep(init, l, name);
      if name != l.name {
        match IndexOf(names, name)
        case None =>
        case Some(m) => assert m != k;
      }
    }
    SumProfitUpdate(rows, k, r[k]);
  }

  lemma MergeNew(rows: seq<ProductRow>, init: seq<SoldLine>, l: SoldLine)
    requires Distinct(RowNames(rows))
    requires forall name :: RowOf(rows, name) == Grouped(init, name)
    requires IndexOf(RowNames(rows), l.name).None?
    ensures Distinct(RowNames(MergeLine(rows, l)))
    ensures forall name :: RowOf(MergeLine(rows, l), name) == Grouped(init + [l], name)
    ensures SumProfit(MergeLine(rows, l)) == SumProfit(rows) + l.profit
  {
    var names := RowNames(rows);
    var r := MergeLine(rows, l);
    assert RowNames(r) == names + [l.name];
    assert RowOf(rows, l.name) == None;
    AbsentName(init, l.name);
    DistinctAppend(names, l.name);
    forall name ensures RowOf(r, name) == Grouped(init + [l], name) {
      IndexOfAppend(names, l.name, name);
      GroupedStep(init, l, name);
      if name != l.name {
        match IndexOf(names, name)
        case None =>
        case Some(m) => assert r[m] == rows[m];
      }
    }
    assert r[..|r| - 1] == rows;
  }

  /** The grouped report has one row per name sold, carrying that name's summed
      quantity and profit, and no other rows; its profits add up to the profit
      of all joined lines. */
  lemma {:induction false} GroupByNameSpec(lines: seq<SoldLine>)
    ensures Distinct(RowNames(GroupByName(lines)))
    ensures forall name :: RowOf(GroupByName(lines), name) == Grouped(lines, name)
    ensures SumProfit(GroupByName(lines)) == TotalProfit(lines)
  {
    if lines == [] {
      forall name ensures RowOf(GroupByName(lines), name) == Grouped(lines, name) {
        assert RowNames([]) == [];
      }
    } else {
      var init := lines[..|lines| - 1];
      var l := lines[|lines| - 1];
      assert lines == init + [l];
      GroupByNameSpec(init);
      match IndexOf(RowNames(GroupByName(init)), l.name)
      case Some(k) => MergeExisting(GroupByName(init), init, l, k);
      case None => MergeNew(GroupByName(init), init, l);
    }
  }

  /** Every grouped row is the row of a name sold, holding that name's summed
      quantity and profit. */
  lemma RowsAreGrouped(lines: seq<SoldLine>)
    ensures forall x :: x in GroupByName(lines) ==>
      x.name in LineNames(lines) && x == ProductRow(x.name, NameQuantity(lines, x.name), NameProfit(lines, x.name))
  {
    var rows := GroupByName(lines);
    GroupByNameSpec(lines);
    forall x | x in rows
      ensures x.name in LineNames(lines) && x == ProductRow(x.name, NameQuantity(lines, x.name), NameProfit(lines, x.name))
    {
      var k :| 0 <= k < |rows| && rows[k] == x;
      assert RowNames(rows)[k] == x.name;
      IndexOfDistinct(RowNames(rows), k);
      assert RowOf(rows, x.name) == Some(x);
    }
  }

  /** The quantity a name sold according to a grouped report, 0 when the
      report has no row for it (the comparison table's fill with 0). */
  function SoldFor(rows: seq<ProductRow>, name: string): int {
    match RowOf(rows, name)
    case None => 0
    case Some(r) => r.quantity
  }

  lemma SoldForSpec(lines: seq<SoldLine>, name: string)
    ensures SoldFor(GroupByName(lines), name) == NameQuantity(lines, name)
  {
    GroupByNameSpec(lines);
    if name !in LineNames(lines) {
      AbsentName(lines, name);
    }
  }
}
