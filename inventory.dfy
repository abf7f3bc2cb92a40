/** The inventory page: catalog CRUD over products and their inventory rows,
    the add-product form's guard, and the stock table it shows. */
module Inventory {
  import opened Seqs
  import opened Db

  lemma ProductIdsAppend(ps: seq<Product>, p: Product)
    ensures ProductIds(ps + [p]) == ProductIds(ps) + [p.id]
  {
  }

  lemma ProductIdsRemove(ps: seq<Product>, k: nat)
    requires k < |ps|
    ensures ProductIds(ps[..k] + ps[k + 1..]) == ProductIds(ps)[..k] + ProductIds(ps)[k + 1..]
  {
  }

  /** Adds a product and its inventory row in one commit. The new id is the
      next free primary key; the row holds the given initial quantity. */
  method AddProduct(db: Store, name: string, description: string,
                    purchasePrice: Cents, salePrice: Cents, quantity: int, now: Time)
    returns (id: ProductId)
    requires db.Valid()
    modifies db
    ensures db.Valid()
    ensures id == NextId(ProductIds(old(db.products))) && id !in ProductIds(old(db.products))
    ensures db.products == old(db.products) + [Product(id, name, description, purchasePrice, salePrice, now)]
    ensures db.inventory == old(db.inventory)[id := quantity]
    ensures db.sales == old(db.sales) && db.lineItems == old(db.lineItems)
    ensures db.expenses == old(db.expenses)
  {
    id := NextId(ProductIds(db.products));
    var p := Product(id, name, description, purchasePrice, salePrice, now);
    ProductIdsAppend(db.products, p);
    DistinctAppend(ProductIds(db.products), id);
    db.products := db.products + [p];
    db.inventory := db.inventory[id := quantity];
  }

  /** The add-product form: the product is added only with a non-empty name
      and both prices above zero; otherwise nothing changes. */
  method SubmitNewProduct(db: Store, name: string, description: string,
                          purchasePrice: Cents, salePrice: Cents, quantity: int, now: Time)
    returns (added: Option<ProductId>)
    requires db.Valid()
    modifies db
    ensures db.Valid()
    ensures added.Some? <==> name != "" && purchasePrice > 0 && salePrice > 0
    ensures added.None? ==> unchanged(db)
    ensures added.Some? ==>
      && added.value !in ProductIds(old(db.products))
      && db.products == old(db.products) + [Product(added.value, name, description, purchasePrice, salePrice, now)]
      && db.inventory == old(db.inventory)[added.value := quantity]
      && db.sales == old(db.sales) && db.lineItems == old(db.lineItems)
      && db.expenses == old(db.expenses)
  {
    if name != "" && purchasePrice > 0 && salePrice > 0 {
      var id := AddProduct(db, name, description, purchasePrice, salePrice, quantity, now);
      added := Some(id);
    } else {
      added := None;
    }
  }

  /** Overwrites name, description and both prices of a known product. */
  method UpdateProduct(db: Store, id: ProductId, name: string, description: string,
                       purchasePrice: Cents, salePrice: Cents)
    returns (found: bool)
    requires db.Valid()
    modifies db
    ensures db.Valid()
    ensures found <==> id in ProductIds(old(db.products))
    ensures !found ==> unchanged(db)
    ensures found ==>
      var k := FindProduct(old(db.products), id).value;
      db.products == old(db.products)[k := old(db.products)[k].(name := name, description := description,
                                                                purchasePrice := purchasePrice, salePrice := salePrice)]
    ensures db.inventory == old(db.inventory) && db.sales == old(db.sales)
    ensures db.lineItems == old(db.lineItems) && db.expenses == old(db.expenses)
  {
    match FindProduct(db.products, id)
    case None =>
      found := false;
    case Some(k) =>
      var p := db.products[k];
      var updated := db.products[k := p.(name := name, description := description,
                                         purchasePrice := purchasePrice, salePrice := salePrice)];
      assert ProductIds(updated) == ProductIds(db.products);
      db.products := updated;
      found := true;
  }

  /** Sets (not adjusts) the quantity of a product's inventory row. */
  method UpdateInventory(db: Store, id: ProductId, quantity: int) returns (found: bool)
    requires db.Valid()
    modifies db
    ensures db.Valid()
    ensures found <==> id in old(db.inventory)
    ensures db.inventory == if found then old(db.inventory)[id := quantity] else old(db.inventory)
    ensures db.products == old(db.products) && db.sales == old(db.sales)
    ensures db.lineItems == old(db.lineItems) && db.expenses == old(db.expenses)
  {
    if id in db.inventory {
      db.inventory := db.inventory[id := quantity];
      found := true;
    } else {
      found := false;
    }
  }

  /** The edit form: the product's fields are overwritten, then its inventory
      row's quantity is set; each step does nothing when its row is missing. */
  method SubmitEdit(db: Store, id: ProductId, name: string, description: string,
                    purchasePrice: Cents, salePrice: Cents, quantity: int)
    returns (productFound: bool, stockFound: bool)
    requires db.Valid()
    modifies db
    ensures db.Valid()
    ensures productFound <==> id in ProductIds(old(db.products))
    ensures stockFound <==> id in old(db.inventory)
    ensures db.products == if productFound then
        var k := FindProduct(old(db.products), id).value;
        old(db.products)[k := old(db.products)[k].(name := name, description := description,
                                                   purchasePrice := purchasePrice, salePrice := salePrice)]
      else old(db.products)
    ensures db.inventory == if stockFound then old(db.inventory)[id := quantity] else old(db.inventory)
    ensures db.sales == old(db.sales) && db.lineItems == old(db.lineItems)
    ensures db.expenses == old(db.expenses)
  {
    productFound := UpdateProduct(db, id, name, description, purchasePrice, salePrice);
    stockFound := UpdateInventory(db, id, quantity);
  }

  /** Deletes a known product together with its inventory row. Its sale
      line items stay, with their product reference set to NULL: the
      product's relationship to them has no delete cascade, so the
      session nulls the reference before deleting the product. */
  method DeleteProduct(db: Store, id: ProductId) returns (found: bool)
    requires db.Valid()
    modifies db
    ensures db.Valid()
    ensures found <==> id in ProductIds(old(db.products))
    ensures !found ==> unchanged(db)
    ensures found ==>
      var k := FindProduct(old(db.products), id).value;
      db.products == old(db.products)[..k] + old(db.products)[k + 1..]
    ensures forall p :: p in db.products <==> p in old(db.products) && p.id != id
    ensures db.inventory == old(db.inventory) - {id}
    ensures db.lineItems == if found then Detached(old(db.lineItems), id) else old(db.lineItems)
    ensures db.sales == old(db.sales) && db.expenses == old(db.expenses)
  {
    match FindProduct(db.products, id)
    case None =>
      found := false;
      assert db.inventory - {id} == db.inventory;
    case Some(k) =>
      DeleteKeepsConsistent(db.products, db.inventory, db.sales, db.lineItems, k);
      db.inventory := db.inventory - {id};
      db.products := db.products[..k] + db.products[k + 1..];
      db.lineItems := Detached(db.lineItems, id);
      found := true;
  }

  /** The line items after deleting product `id`: those that named it now
      name no product, the others are untouched. */
  function Detached(items: seq<LineItem>, id: ProductId): (r: seq<LineItem>)
    ensures |r| == |items|
    ensures forall j :: 0 <= j < |items| ==>
      r[j] == if items[j].productId == id then items[j].(productId := NoProduct) else items[j]
  {
    seq(|items|, j requires 0 <= j < |items| =>
      if items[j].productId == id then items[j].(productId := NoProduct) else items[j])
  }

  /** Detaching leaves every sale's line-item total as it was. */
  lemma {:induction false} DetachedTotals(items: seq<LineItem>, id: ProductId, saleId: nat)
    ensures SaleItemsTotal(Detached(items, id), saleId) == SaleItemsTotal(items, saleId)
  {
    if items != [] {
      var init := items[..|items| - 1];
      assert Detached(items, id)[..|items| - 1] == Detached(init, id);
      DetachedTotals(init, id, saleId);
    }
  }

  /** A detached line item joins no product, whatever products are added later. */
  lemma DetachedJoinsNothing(items: seq<LineItem>, id: ProductId, ps: seq<Product>, j: nat)
    requires NoProduct !in ProductIds(ps)
    requires j < |items| && items[j].productId == id
    ensures FindProduct(ps, Detached(items, id)[j].productId).None?
  {
  }

  /** Deleting the product at `k` with its inventory row keeps the tables consistent,
      and leaves exactly the products with another id. */
  lemma DeleteKeepsConsistent(ps: seq<Product>, inventory: map<ProductId, int>,
                              sales: seq<Sale>, lineItems: seq<LineItem>, k: nat)
    requires Consistent(ps, inventory, sales, lineItems) && k < |ps|
    ensures Consistent(ps[..k] + ps[k + 1..], inventory - {ps[k].id}, sales, Detached(lineItems, ps[k].id))
    ensures forall p :: p in ps[..k] + ps[k + 1..] <==> p in ps && p.id != ps[k].id
  {
    var ids := ProductIds(ps);
    ProductIdsRemove(ps, k);
    DistinctRemove(ids, k);
    RemainingProducts(ps, k);
    var detached := Detached(lineItems, ps[k].id);
    forall i | 0 <= i < |sales| ensures sales[i].total == SaleItemsTotal(detached, sales[i].id) {
      DetachedTotals(lineItems, ps[k].id, sales[i].id);
    }
  }

  /** With distinct ids, the products left after removing the one at `k` are
      exactly those with a different id. */
  lemma RemainingProducts(ps: seq<Product>, k: nat)
    requires Distinct(ProductIds(ps)) && k < |ps|
    ensures forall p :: p in ps[..k] + ps[k + 1..] <==> p in ps && p.id != ps[k].id
  {
    var ids := ProductIds(ps);
    var rest := ps[..k] + ps[k + 1..];
    ProductIdsRemove(ps, k);
    DistinctRemove(ids, k);
    RemoveMembers(ps, k);
    forall p | p in rest ensures p.id != ps[k].id {
      var m :| 0 <= m < |rest| && rest[m] == p;
      assert ProductIds(rest)[m] == p.id;
    }
  }

  /** A row of the stock table. */
  datatype StockRow = StockRow(id: ProductId, name: string, stock: int,
                               salePrice: Cents, description: string)

  /** The stock table: one row per catalog product, in catalog order; a
      product without an inventory row shows stock 0. */
  method StockView(products: seq<Product>, inventory: map<ProductId, int>)
    returns (rows: seq<StockRow>)
    ensures |rows| == |products|
    ensures forall i :: 0 <= i < |products| ==>
      && rows[i].id == products[i].id && rows[i].name == products[i].name
      && rows[i].salePrice == products[i].salePrice && rows[i].description == products[i].description
      && rows[i].stock == (if products[i].id in inventory then inventory[products[i].id] else 0)
  {
    rows := [];
    var i := 0;
    while i < |products|
      invariant 0 <= i <= |products|
      invariant |rows| == i
      invariant forall j :: 0 <= j < i ==>
        rows[j] == StockRow(products[j].id, products[j].name, StockOf(inventory, products[j].id),
                            products[j].salePrice, products[j].description)
    {
      var p := products[i];
      var quantity := if p.id in inventory then inventory[p.id] else 0;
      rows := rows + [StockRow(p.id, p.name, quantity, p.salePrice, p.description)];
      i := i + 1;
    }
  }
}
