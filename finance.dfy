/** The finance page: recording an expense, and the cash flow of a date range
    (sales, expenses and their difference). */
module Finance {
  import opened Seqs
  import opened Db
  import opened Ledger
  import opened Reports

  /** The expense form: an expense with a non-empty description and a positive
      amount is stored with the next free id and the current time; anything
      else changes nothing. */
  method RecordExpense(db: Store, description: string, amount: Cents, now: Time) returns (recorded: bool)
    requires db.Valid()
    modifies db
    ensures db.Valid()
    ensures recorded <==> description != "" && amount > 0
    ensures recorded ==>
      db.expenses == old(db.expenses) + [Expense(NextId(ExpenseIds(old(db.expenses))), description, amount, now)]
    ensures !recorded ==> unchanged(db)
    ensures db.products == old(db.products) && db.inventory == old(db.inventory)
    ensures db.sales == old(db.sales) && db.lineItems == old(db.lineItems)
    ensures forall w :: ExpensesTotal(db.expenses, w) >= 0
  {
    if description != "" && amount > 0 {
      var id := NextId(ExpenseIds(db.expenses));
      RecordedExpenseId(db.expenses, description, amount, now);
      db.expenses := db.expenses + [Expense(id, description, amount, now)];
      recorded := true;
    } else {
      recorded := false;
    }
    forall w ensures ExpensesTotal(db.expenses, w) >= 0 {
      ExpensesTotalNonNegative(db.expenses, w);
    }
  }

  /** A recorded expense takes an id no earlier expense has, so expense ids stay distinct. */
  lemma RecordedExpenseId(expenses: seq<Expense>, description: string, amount: Cents, now: Time)
    requires Distinct(ExpenseIds(expenses))
    ensures Distinct(ExpenseIds(expenses + [Expense(NextId(ExpenseIds(expenses)), description, amount, now)]))
  {
    var e := Expense(NextId(ExpenseIds(expenses)), description, amount, now);
    assert ExpenseIds(expenses + [e]) == ExpenseIds(expenses) + [e.id];
    DistinctAppend(ExpenseIds(expenses), e.id);
  }

  /** Sum of the amounts of the expenses in the window (0 when there are none). */
  function ExpensesTotal(expenses: seq<Expense>, w: Window): Cents {
    if expenses == [] then 0
    else
      var last := expenses[|expenses| - 1];
      ExpensesTotal(expenses[..|expenses| - 1], w) + (if InWindow(w, last.time) then last.amount else 0)
  }

  /** Expenses that passed the form's guard add up to a non-negative total. */
  lemma {:induction false} ExpensesTotalNonNegative(expenses: seq<Expense>, w: Window)
    requires forall i :: 0 <= i < |expenses| ==> expenses[i].amount > 0
    ensures ExpensesTotal(expenses, w) >= 0
    ensures ExpensesTotal(expenses, w) == 0 <==> forall i :: 0 <= i < |expenses| ==> !InWindow(w, expenses[i].time)
  {
    if expenses != [] {
      var init := expenses[..|expenses| - 1];
      assert forall i :: 0 <= i < |init| ==> init[i] == expenses[i];
      ExpensesTotalNonNegative(init, w);
    }
  }

  /** The three figures of the cash-flow section. */
  datatype CashFlow = CashFlow(salesTotal: Cents, expensesTotal: Cents, net: Cents)

  /** The cash flow of the dates `start` through `end`: the sales and the
      expenses dated in that range and their difference, which is negative
      when expenses exceed sales. This is the range the reports page covers;
      the page itself stops before the end date (`CashFlowAsWritten`). */
  function CashFlowOf(sales: seq<Sale>, expenses: seq<Expense>, start: int, end: int): (r: CashFlow)
    ensures r.salesTotal == SalesTotal(sales, Period(start, end))
    ensures r.expensesTotal == ExpensesTotal(expenses, Period(start, end))
    ensures r.net < 0 <==> r.expensesTotal > r.salesTotal
    ensures r.salesTotal == r.net + r.expensesTotal
  {
    var w := Period(start, end);
    var s := SalesTotal(sales, w);
    var e := ExpensesTotal(expenses, w);
    CashFlow(s, e, s - e)
  }

  /** The page's own query: timestamps from midnight of `start` up to midnight
      of `end`, which leaves out everything dated on the end date. */
  function CashFlowAsWritten(sales: seq<Sale>, expenses: seq<Expense>, start: int, end: int): (r: CashFlow)
    ensures r.salesTotal == SalesTotal(sales, Between(start, end))
    ensures r.expensesTotal == ExpensesTotal(expenses, Between(start, end))
    ensures r.salesTotal == r.net + r.expensesTotal
  {
    var w := Between(start, end);
    var s := SalesTotal(sales, w);
    var e := ExpensesTotal(expenses, w);
    CashFlow(s, e, s - e)
  }

  /** The page's range start..end is the full-date range start..end - 1: it
      reports every date but the last one chosen. */
  lemma AsWrittenDropsEndDate(sales: seq<Sale>, expenses: seq<Expense>, start: int, end: int)
    ensures CashFlowAsWritten(sales, expenses, start, end) == CashFlowOf(sales, expenses, start, end - 1)
  {
    forall t | true ensures InWindow(Between(start, end), t) <==> InWindow(Period(start, end - 1), t) {
      WindowDates(Between(start, end), t);
      WindowDates(Period(start, end - 1), t);
    }
    SalesTotalSameWindow(sales, Between(start, end), Period(start, end - 1));
    ExpensesTotalSameWindow(expenses, Between(start, end), Period(start, end - 1));
  }

  /** The default range ends today: a 15.00 sale made at 10:00 today is missing
      from the page's cash flow, while the corrected range counts it. */
  lemma EndDateSaleMissed()
    ensures CashFlowAsWritten([Sale(1, Midnight(20000) + 36000, 1500)], [], 19970, 20000).salesTotal == 0
    ensures CashFlowOf([Sale(1, Midnight(20000) + 36000, 1500)], [], 19970, 20000).salesTotal == 1500
  {
    var sales := [Sale(1, Midnight(20000) + 36000, 1500)];
    assert sales[..0] == [];
    assert !InWindow(Between(19970, 20000), sales[0].time);
    assert InWindow(Period(19970, 20000), sales[0].time);
  }

  /** Expense totals over two windows that hold the same timestamps are equal. */
  lemma {:induction false} ExpensesTotalSameWindow(expenses: seq<Expense>, w1: Window, w2: Window)
    requires forall t :: InWindow(w1, t) <==> InWindow(w2, t)
    ensures ExpensesTotal(expenses, w1) == ExpensesTotal(expenses, w2)
  {
    if expenses != [] {
      ExpensesTotalSameWindow(expenses[..|expenses| - 1], w1, w2);
    }
  }

  /** The corrected cash flow counts the same sales as the report of the same dates. */
  lemma CashFlowMatchesReport(products: seq<Product>, inventory: map<ProductId, int>, sales: seq<Sale>,
                              items: seq<LineItem>, expenses: seq<Expense>, start: int, end: int)
    requires start <= end
    ensures CashFlowOf(sales, expenses, start, end).salesTotal
      == Report(products, inventory, sales, items, start, end).value.totalSales
  {
  }

  /** Recording an expense dated inside the range lowers the net by its amount
      and leaves the sales figure alone; one dated outside changes nothing. */
  lemma RecordedExpenseLowersNet(sales: seq<Sale>, expenses: seq<Expense>, e: Expense, start: int, end: int)
    ensures var before := CashFlowOf(sales, expenses, start, end);
      var after := CashFlowOf(sales, expenses + [e], start, end);
      && after.salesTotal == before.salesTotal
      && after.net == before.net - (if start <= DateOf(e.time) <= end then e.amount else 0)
  {
    assert (expenses + [e])[..|expenses|] == expenses;
    WindowDates(Period(start, end), e.time);
  }

  /** The bar chart's two amounts: the magnitudes of sales and expenses. */
  function ChartAmounts(flow: CashFlow): (r: seq<Cents>)
    ensures |r| == 2 && r[0] >= 0 && r[1] >= 0
    ensures r[0] == flow.salesTotal || r[0] == -flow.salesTotal
    ensures r[1] == flow.expensesTotal || r[1] == -flow.expensesTotal
  {
    [if flow.salesTotal < 0 then -flow.salesTotal else flow.salesTotal,
     if flow.expensesTotal < 0 then -flow.expensesTotal else flow.expensesTotal]
  }
}
