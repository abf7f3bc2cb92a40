/** The store's tables (products, inventory, sales, sale line items, expenses)
    as one in-memory object. Money is in integer cents (the columns are
    Numeric(10, 2)); a timestamp is an integer count of seconds, UTC. */
module Db {
  import opened Seqs

  type Cents = int
  type Time = int
  type ProductId = nat

  const SecondsPerDay: int := 86400

  /** The calendar day of a timestamp (the database's date cast), as a day number. */
  function DateOf(t: Time): int { t / SecondsPerDay }

  /** The timestamp a date stands for when it is compared with a timestamp: its midnight. */
  function Midnight(d: int): Time { d * SecondsPerDay }

  /** A line item's product reference once its product is deleted: the
      database sets the column to NULL. No product has this id, because
      product ids are handed out from 1. */
  const NoProduct: ProductId := 0

  datatype Product = Product(id: ProductId, name: string, description: string,
                             purchasePrice: Cents, salePrice: Cents, createdAt: Time)

  /** A sale header: its id, when it happened and its total. */
  datatype Sale = Sale(id: nat, time: Time, total: Cents)

  /** One product line of a sale, with the unit price captured when it was sold. */
  datatype LineItem = LineItem(id: nat, saleId: nat, productId: ProductId,
                               quantity: int, unitPrice: Cents)

  datatype Expense = Expense(id: nat, description: string, amount: Cents, time: Time)

  function ProductIds(ps: seq<Product>): (ids: seq<nat>)
    ensures |ids| == |ps| && forall i :: 0 <= i < |ps| ==> ids[i] == ps[i].id
  {
    seq(|ps|, i requires 0 <= i < |ps| => ps[i].id)
  }

  function SaleIds(ss: seq<Sale>): (ids: seq<nat>)
    ensures |ids| == |ss| && forall i :: 0 <= i < |ss| ==> ids[i] == ss[i].id
  {
    seq(|ss|, i requires 0 <= i < |ss| => ss[i].id)
  }

  function LineItemIds(items: seq<LineItem>): (ids: seq<nat>)
    ensures |ids| == |items| && forall i :: 0 <= i < |items| ==> ids[i] == items[i].id
  {
    seq(|items|, i requires 0 <= i < |items| => items[i].id)
  }

  function ExpenseIds(es: seq<Expense>): (ids: seq<nat>)
    ensures |ids| == |es| && forall i :: 0 <= i < |es| ==> ids[i] == es[i].id
  {
    seq(|es|, i requires 0 <= i < |es| => es[i].id)
  }

  /** The product with this id, by its position in the catalog. */
  function FindProduct(ps: seq<Product>, id: ProductId): (r: Option<nat>)
    ensures r.Some? ==> r.value < |ps| && ps[r.value].id == id
    ensures r.None? <==> forall j :: 0 <= j < |ps| ==> ps[j].id != id
  {
    IndexOf(ProductIds(ps), id)
  }

  /** The stock a product's inventory row holds, 0 when it has none. */
  function StockOf(inventory: map<ProductId, int>, id: ProductId): int {
    if id in inventory then inventory[id] else 0
  }

  /** Sum of quantity times unit price over the line items of sale `saleId`. */
  function SaleItemsTotal(items: seq<LineItem>, saleId: nat): Cents {
    if items == [] then 0
    else
      var last := items[|items| - 1];
      SaleItemsTotal(items[..|items| - 1], saleId)
        + (if last.saleId == saleId then last.quantity * last.unitPrice else 0)
  }

  lemma {:induction false} SaleItemsTotalAppend(a: seq<LineItem>, b: seq<LineItem>, saleId: nat)
    ensures SaleItemsTotal(a + b, saleId) == SaleItemsTotal(a, saleId) + SaleItemsTotal(b, saleId)
  {
    if b == [] {
      assert a + b == a;
    } else {
      var n := |b| - 1;
      assert (a + b)[..|a + b| - 1] == a + b[..n];
      SaleItemsTotalAppend(a, b[..n], saleId);
    }
  }

  lemma {:induction false} SaleItemsTotalOther(items: seq<LineItem>, saleId: nat)
    requires forall j :: 0 <= j < |items| ==> items[j].saleId != saleId
    ensures SaleItemsTotal(items, saleId) == 0
  {
    if items != [] {
      SaleItemsTotalOther(items[..|items| - 1], saleId);
    }
  }

  /** What the schema and the pages keep true of the tables: product and sale
      ids are primary keys (and no product has the NULL id), an inventory row belongs to a catalog product (at
      most one per product), every line item belongs to a recorded sale, and
      each sale's total is the sum of its own line items. */
  ghost predicate Consistent(products: seq<Product>, inventory: map<ProductId, int>,
                             sales: seq<Sale>, lineItems: seq<LineItem>)
  {
    && Distinct(ProductIds(products))
    && NoProduct !in ProductIds(products)
    && (forall id :: id in inventory ==> id in ProductIds(products))
    && Distinct(SaleIds(sales))
    && (forall j :: 0 <= j < |lineItems| ==> lineItems[j].saleId in SaleIds(sales))
    && (forall i :: 0 <= i < |sales| ==> sales[i].total == SaleItemsTotal(lineItems, sales[i].id))
  }

  class Store {
    var products: seq<Product>
    var inventory: map<ProductId, int>
    var sales: seq<Sale>
    var lineItems: seq<LineItem>
    var expenses: seq<Expense>

    /** The tables are consistent, expense ids are primary keys and every
        expense has a positive amount (the expense form's guard). */
    ghost predicate Valid()
      reads this
    {
      && Consistent(products, inventory, sales, lineItems)
      && Distinct(ExpenseIds(expenses))
      && (forall i :: 0 <= i < |expenses| ==> expenses[i].amount > 0)
    }

    /** An empty store, as the schema is first created. */
    constructor ()
      ensures Valid()
      ensures products == [] && inventory == map[] && sales == []
      ensures lineItems == [] && expenses == []
    {
      products, inventory, sales, lineItems, expenses := [], map[], [], [], [];
    }
  }
}
