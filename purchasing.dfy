/** The shopping-list page: every product's stock with a low-stock flag, the
    list of products to buy, and restocking one of them. */
module Purchasing {
  import opened Seqs
  import opened Db

  /** Low stock is stock at or under the threshold (a product without an
      inventory row counts as stock 0). */
  predicate IsLow(inventory: map<ProductId, int>, threshold: int, p: Product) {
    StockOf(inventory, p.id) <= threshold
  }

  /** The products to buy: the low-stock ones, in catalog order. A product
      without an inventory row is among them whenever the threshold is at
      least 1, as the page's input enforces. */
  function LowStock(products: seq<Product>, inventory: map<ProductId, int>, threshold: int): (r: seq<Product>)
    ensures IsSubsequence(r, products)
    ensures forall p :: p in r <==> p in products && IsLow(inventory, threshold, p)
    ensures threshold >= 1 ==> forall p :: p in products && p.id !in inventory ==> p in r
  {
    if products == [] then []
    else
      var init := products[..|products| - 1];
      var p := products[|products| - 1];
      assert products == init + [p];
      var rest := LowStock(init, inventory, threshold);
      if IsLow(inventory, threshold, p) then
        assert rest + [p] == (rest + [p])[..|rest|] + [p];
        rest + [p]
      else rest
  }

  /** A row of the stock table with its alert. */
  datatype AlertRow = AlertRow(id: ProductId, name: string, stock: int, low: bool)

  /** The page's loop: one alert row per catalog product, in catalog order, and
      the shopping list built alongside it. */
  method LowStockReport(products: seq<Product>, inventory: map<ProductId, int>, threshold: int)
    returns (rows: seq<AlertRow>, toBuy: seq<Product>)
    ensures |rows| == |products|
    ensures forall i :: 0 <= i < |products| ==>
      && rows[i].id == products[i].id && rows[i].name == products[i].name
      && rows[i].stock == (if products[i].id in inventory then inventory[products[i].id] else 0)
      && (rows[i].low <==> rows[i].stock <= threshold)
    ensures toBuy == LowStock(products, inventory, threshold)
  {
    rows, toBuy := [], [];
    var i := 0;
    while i < |products|
      invariant 0 <= i <= |products|
      invariant |rows| == i
      invariant forall j :: 0 <= j < i ==>
        rows[j] == AlertRow(products[j].id, products[j].name, StockOf(inventory, products[j].id),
                            StockOf(inventory, products[j].id) <= threshold)
      invariant toBuy == LowStock(products[..i], inventory, threshold)
    {
      var p := products[i];
      var quantity := if p.id in inventory then inventory[p.id] else 0;
      rows := rows + [AlertRow(p.id, p.name, quantity, quantity <= threshold)];
      ghost var prefix := products[..i + 1];
      assert prefix[..i] == products[..i] && prefix[i] == p;
      assert quantity == StockOf(inventory, p.id);
      assert LowStock(prefix, inventory, threshold)
          == toBuy + (if quantity <= threshold then [p] else []);
      if quantity <= threshold {
        toBuy := toBuy + [p];
      }
      i := i + 1;
    }
    assert products[..i] == products;
  }

  /** "Buy and update stock": adds the purchased amount to the product's
      inventory row; with no row it reports an error and changes nothing. */
  method Restock(db: Store, id: ProductId, amount: int) returns (ok: bool)
    requires db.Valid()
    modifies db
    ensures db.Valid()
    ensures ok <==> id in old(db.inventory)
    ensures ok ==> db.inventory == old(db.inventory)[id := old(db.inventory)[id] + amount]
    ensures !ok ==> unchanged(db)
    ensures db.products == old(db.products) && db.sales == old(db.sales)
    ensures db.lineItems == old(db.lineItems) && db.expenses == old(db.expenses)
  {
    if id in db.inventory {
      db.inventory := db.inventory[id := db.inventory[id] + amount];
      ok := true;
    } else {
      ok := false;
    }
  }
}
