/** The sales page: the products offered for sale, the session's cart (an
    insertion-ordered dictionary from product id to name, price snapshot and
    quantity) and the all-or-nothing checkout. */
module Sales {
  import opened Seqs
  import opened Db

  /** A cart entry: the product's name and sale price as they were when the
      product was first added, and the quantity accumulated since. */
  datatype CartEntry = CartEntry(productId: ProductId, name: string, unitPrice: Cents, quantity: int)

  function CartIds(entries: seq<CartEntry>): (ids: seq<nat>)
    ensures |ids| == |entries| && forall i :: 0 <= i < |entries| ==> ids[i] == entries[i].productId
  {
    seq(|entries|, i requires 0 <= i < |entries| => entries[i].productId)
  }

  /** The cart's entry for a product, if it has one. */
  function Lookup(entries: seq<CartEntry>, id: ProductId): Option<CartEntry> {
    match IndexOf(CartIds(entries), id)
    case None => None
    case Some(k) => Some(entries[k])
  }

  class Cart {
    var entries: seq<CartEntry>

    /** A dictionary holds each key once. */
    ghost predicate Valid()
      reads this
    {
      Distinct(CartIds(entries))
    }

    constructor ()
      ensures Valid() && entries == []
    {
      entries := [];
    }
  }

  // ---------------------------------------------------------------- offer

  /** The products offered for sale: those whose inventory row holds more than zero. */
  function AvailableProducts(products: seq<Product>, inventory: map<ProductId, int>): (r: seq<Product>)
    ensures IsSubsequence(r, products)
    ensures forall p :: p in r <==> p in products && p.id in inventory && inventory[p.id] > 0
  {
    if products == [] then []
    else
      var init := products[..|products| - 1];
      var p := products[|products| - 1];
      assert products == init + [p];
      var rest := AvailableProducts(init, inventory);
      if p.id in inventory && inventory[p.id] > 0 then
        assert rest + [p] == (rest + [p])[..|rest|] + [p];
        rest + [p]
      else rest
  }

  // ---------------------------------------------------------------- cart edits

  /** The cart after adding `quantity` of a product: an entry already there
      grows by that quantity; otherwise the product's current name and sale
      price are captured in a new last entry; an unknown product adds nothing. */
  function Added(entries: seq<CartEntry>, products: seq<Product>, id: ProductId, quantity: int): seq<CartEntry> {
    match IndexOf(CartIds(entries), id)
    case Some(k) => entries[k := entries[k].(quantity := entries[k].quantity + quantity)]
    case None =>
      match FindProduct(products, id)
      case Some(j) => entries + [CartEntry(id, products[j].name, products[j].salePrice, quantity)]
      case None => entries
  }

  /** The cart with a product's entry deleted, the others kept in order. */
  function Removed(entries: seq<CartEntry>, id: ProductId): seq<CartEntry> {
    match IndexOf(CartIds(entries), id)
    case Some(k) => entries[..k] + entries[k + 1..]
    case None => entries
  }

  /** The amount due for one entry. */
  function LineTotal(e: CartEntry): Cents { e.unitPrice * e.quantity }

  /** Sum of price times quantity over the cart (the checkout's total). */
  function CartTotal(entries: seq<CartEntry>): Cents {
    if entries == [] then 0
    else CartTotal(entries[..|entries| - 1]) + LineTotal(entries[|entries| - 1])
  }

  lemma {:induction false} CartTotalAppend(a: seq<CartEntry>, b: seq<CartEntry>)
    ensures CartTotal(a + b) == CartTotal(a) + CartTotal(b)
  {
    if b == [] {
      assert a + b == a;
    } else {
      var n := |b| - 1;
      assert (a + b)[..|a + b| - 1] == a + b[..n];
      CartTotalAppend(a, b[..n]);
    }
  }

  lemma CartTotalSplit(entries: seq<CartEntry>, k: nat)
    requires k < |entries|
    ensures CartTotal(entries) == CartTotal(entries[..k]) + LineTotal(entries[k]) + CartTotal(entries[k + 1..])
  {
    assert entries == entries[..k] + [entries[k]] + entries[k + 1..];
    CartTotalAppend(entries[..k] + [entries[k]], entries[k + 1..]);
    CartTotalAppend(entries[..k], [entries[k]]);
    assert CartTotal([entries[k]]) == LineTotal(entries[k]) by {
      assert [entries[k]][..0] == [];
    }
  }

  /** Adding a product already in the cart raises its quantity and keeps its
      name and price snapshot, leaving every other entry and the order alone;
      the total grows by the added quantity at the snapshot price. */
  lemma AddExistingSpec(entries: seq<CartEntry>, products: seq<Product>, id: ProductId, quantity: int)
    requires Distinct(CartIds(entries))
    requires Lookup(entries, id).Some?
    ensures var e := Lookup(entries, id).value;
      var r := Added(entries, products, id, quantity);
      && Distinct(CartIds(r)) && CartIds(r) == CartIds(entries)
      && Lookup(r, id) == Some(e.(quantity := e.quantity + quantity))
      && (forall other :: other != id ==> Lookup(r, other) == Lookup(entries, other))
      && CartTotal(r) == CartTotal(entries) + e.unitPrice * quantity
  {
    var k := IndexOf(CartIds(entries), id).value;
    var e := entries[k];
    var v := e.(quantity := e.quantity + quantity);
    assert Added(entries, products, id, quantity) == entries[k := v];
    UpdateLookup(entries, k, v);
    CartTotalUpdate(entries, k, v);
    LineTotalAdd(e, quantity);
  }

  lemma LineTotalAdd(e: CartEntry, quantity: int)
    ensures LineTotal(e.(quantity := e.quantity + quantity)) == LineTotal(e) + e.unitPrice * quantity
  {
    assert e.unitPrice * (e.quantity + quantity) == e.unitPrice * e.quantity + e.unitPrice * quantity;
  }

  /** Replacing an entry by one for the same product keeps the keys; only that
      product's lookup changes. */
  lemma UpdateLookup(entries: seq<CartEntry>, k: nat, v: CartEntry)
    requires Distinct(CartIds(entries)) && k < |entries| && v.productId == entries[k].productId
    ensures CartIds(entries[k := v]) == CartIds(entries)
    ensures Lookup(entries[k := v], v.productId) == Some(v)
    ensures forall other :: other != v.productId ==> Lookup(entries[k := v], other) == Lookup(entries, other)
  {
    var r := entries[k := v];
    assert CartIds(r) == CartIds(entries);
    IndexOfDistinct(CartIds(entries), k);
    forall other | other != v.productId ensures Lookup(r, other) == Lookup(entries, other) {
      match IndexOf(CartIds(entries), other)
      case None =>
      case Some(m) => assert m != k;
    }
  }

  lemma CartTotalUpdate(entries: seq<CartEntry>, k: nat, v: CartEntry)
    requires k < |entries|
    ensures CartTotal(entries[k := v]) == CartTotal(entries) - LineTotal(entries[k]) + LineTotal(v)
  {
    var r := entries[k := v];
    CartTotalSplit(entries, k);
    CartTotalSplit(r, k);
    assert r[..k] == entries[..k] && r[k + 1..] == entries[k + 1..];
  }

  /** Adding a catalog product not yet in the cart appends one entry with the
      product's current name and sale price and the given quantity. */
  lemma AddNewSpec(entries: seq<CartEntry>, products: seq<Product>, id: ProductId, quantity: int)
    requires Distinct(CartIds(entries))
    requires Lookup(entries, id).None?
    ensures var r := Added(entries, products, id, quantity);
      match FindProduct(products, id)
      case None => r == entries
      case Some(j) =>
        && r == entries + [CartEntry(id, products[j].name, products[j].salePrice, quantity)]
        && Distinct(CartIds(r))
        && Lookup(r, id) == Some(CartEntry(id, products[j].name, products[j].salePrice, quantity))
        && (forall other :: other != id ==> Lookup(r, other) == Lookup(entries, other))
        && CartTotal(r) == CartTotal(entries) + products[j].salePrice * quantity
  {
    match FindProduct(products, id)
    case None =>
    case Some(j) =>
      var e := CartEntry(id, products[j].name, products[j].salePrice, quantity);
      var r := entries + [e];
      assert CartIds(r) == CartIds(entries) + [id];
      DistinctAppend(CartIds(entries), id);
      IndexOfAppend(CartIds(entries), id, id);
      forall other | other != id ensures Lookup(r, other) == Lookup(entries, other) {
        IndexOfAppend(CartIds(entries), id, other);
      }
      assert r[..|r| - 1] == entries;
  }

  /** Removing a product deletes exactly its entry (and its amount from the
      total); removing a product that is not in the cart changes nothing. */
  lemma RemovedSpec(entries: seq<CartEntry>, id: ProductId)
    requires Distinct(CartIds(entries))
    ensures var r := Removed(entries, id);
      && Distinct(CartIds(r))
      && Lookup(r, id).None?
      && (forall other :: other != id ==> Lookup(r, other) == Lookup(entries, other))
      && (Lookup(entries, id).None? ==> r == entries)
      && (Lookup(entries, id).Some? ==>
            |r| == |entries| - 1 && CartTotal(r) == CartTotal(entries) - LineTotal(Lookup(entries, id).value))
  {
    match IndexOf(CartIds(entries), id)
    case None =>
    case Some(k) =>
      assert Removed(entries, id) == entries[..k] + entries[k + 1..];
      RemoveLookup(entries, k);
      CartTotalSplit(entries, k);
      CartTotalAppend(entries[..k], entries[k + 1..]);
  }

  /** Deleting the entry at `k` drops its product's key and keeps every other lookup. */
  lemma RemoveLookup(entries: seq<CartEntry>, k: nat)
    requires Distinct(CartIds(entries)) && k < |entries|
    ensures var r := entries[..k] + entries[k + 1..];
      && Distinct(CartIds(r))
      && Lookup(r, entries[k].productId).None?
      && (forall other :: other != entries[k].productId ==> Lookup(r, other) == Lookup(entries, other))
  {
    var ids := CartIds(entries);
    var r := entries[..k] + entries[k + 1..];
    assert CartIds(r) == ids[..k] + ids[k + 1..];
    DistinctRemove(ids, k);
    forall other | other != entries[k].productId ensures Lookup(r, other) == Lookup(entries, other) {
      match IndexOf(ids, other)
      case None =>
      case Some(m) =>
        assert m != k;
        var m' := if m < k then m else m - 1;
        assert CartIds(r)[m'] == other && r[m'] == entries[m];
        IndexOfDistinct(CartIds(r), m');
    }
  }

  /** The "add to cart" button. Returns false, leaving the cart as it was, when
      the product is neither in the cart nor in the catalog. */
  method AddToCart(db: Store, cart: Cart, id: ProductId, quantity: int) returns (found: bool)
    requires cart.Valid()
    modifies cart
    ensures cart.Valid()
    ensures found <==> Lookup(old(cart.entries), id).Some? || FindProduct(db.products, id).Some?
    ensures cart.entries == Added(old(cart.entries), db.products, id, quantity)
  {
    match IndexOf(CartIds(cart.entries), id)
    case Some(k) =>
      AddExistingSpec(cart.entries, db.products, id, quantity);
      var e := cart.entries[k];
      cart.entries := cart.entries[k := e.(quantity := e.quantity + quantity)];
      found := true;
    case None =>
      AddNewSpec(cart.entries, db.products, id, quantity);
      match FindProduct(db.products, id)
      case Some(j) =>
        var p := db.products[j];
        cart.entries := cart.entries + [CartEntry(id, p.name, p.salePrice, quantity)];
        found := true;
      case None =>
        found := false;
  }

  /** The remove button; `removed` is false (a warning) when the product was not in the cart. */
  method RemoveFromCart(cart: Cart, id: ProductId) returns (removed: bool)
    requires cart.Valid()
    modifies cart
    ensures cart.Valid()
    ensures removed <==> Lookup(old(cart.entries), id).Some?
    ensures cart.entries == Removed(old(cart.entries), id)
  {
    RemovedSpec(cart.entries, id);
    match IndexOf(CartIds(cart.entries), id)
    case Some(k) =>
      cart.entries := cart.entries[..k] + cart.entries[k + 1..];
      removed := true;
    case None =>
      removed := false;
  }

  /** The total shown under the cart, accumulated entry by entry. */
  method DisplayedCartTotal(entries: seq<CartEntry>) returns (total: Cents)
    ensures total == CartTotal(entries)
  {
    total := 0;
    var i := 0;
    while i < |entries|
      invariant 0 <= i <= |entries|
      invariant total == CartTotal(entries[..i])
    {
      assert entries[..i + 1][..i] == entries[..i];
      total := total + entries[i].unitPrice * entries[i].quantity;
      i := i + 1;
    }
    assert entries[..i] == entries;
  }

  // ---------------------------------------------------------------- checkout

  /** The quantity of a product the cart holds (0 when it holds none). */
  function QuantityIn(entries: seq<CartEntry>, id: ProductId): int {
    if entries == [] then 0
    else
      var last := entries[|entries| - 1];
      QuantityIn(entries[..|entries| - 1], id) + (if last.productId == id then last.quantity else 0)
  }

  lemma {:induction false} QuantityInLookup(entries: seq<CartEntry>, id: ProductId)
    requires Distinct(CartIds(entries))
    ensures QuantityIn(entries, id) == match Lookup(entries, id) case None => 0 case Some(e) => e.quantity
  {
    if entries != [] {
      var init := entries[..|entries| - 1];
      var last := entries[|entries| - 1];
      assert CartIds(entries) == CartIds(init) + [last.productId];
      assert Distinct(CartIds(init));
      QuantityInLookup(init, id);
      IndexOfAppend(CartIds(init), last.productId, id);
    }
  }

  /** The inventory once each cart product's row has gone down by its cart
      quantity. Products without a row get none. */
  function StockAfterSale(inventory: map<ProductId, int>, entries: seq<CartEntry>): map<ProductId, int> {
    map id | id in inventory :: inventory[id] - QuantityIn(entries, id)
  }

  /** Checkout's stock change: exactly the cart quantity comes off each cart
      product's row (with no floor at zero), a product with no row is skipped,
      and every other row keeps its quantity. */
  lemma StockAfterSaleSpec(inventory: map<ProductId, int>, entries: seq<CartEntry>)
    requires Distinct(CartIds(entries))
    ensures StockAfterSale(inventory, entries).Keys == inventory.Keys
    ensures forall id :: id in inventory && Lookup(entries, id).Some? ==>
      StockAfterSale(inventory, entries)[id] == inventory[id] - Lookup(entries, id).value.quantity
    ensures forall id :: id in inventory && Lookup(entries, id).None? ==>
      StockAfterSale(inventory, entries)[id] == inventory[id]
  {
    forall id | id in inventory {
      QuantityInLookup(entries, id);
    }
  }

  /** The line items a checkout writes: one per cart entry, in cart order,
      each with the new sale's id, the product, the cart quantity and the
      price snapshot, numbered from `firstId` on. */
  function LineItemsFor(entries: seq<CartEntry>, saleId: nat, firstId: nat): (items: seq<LineItem>)
    ensures |items| == |entries|
    ensures forall k :: 0 <= k < |entries| ==>
      items[k] == LineItem(firstId + k, saleId, entries[k].productId, entries[k].quantity, entries[k].unitPrice)
  {
    seq(|entries|, k requires 0 <= k < |entries| =>
      LineItem(firstId + k, saleId, entries[k].productId, entries[k].quantity, entries[k].unitPrice))
  }

  /** The line items of a sale add up to the cart total of the sale. */
  lemma {:induction false} LineItemsTotal(entries: seq<CartEntry>, saleId: nat, firstId: nat)
    ensures SaleItemsTotal(LineItemsFor(entries, saleId, firstId), saleId) == CartTotal(entries)
  {
    if entries != [] {
      var n := |entries| - 1;
      var items := LineItemsFor(entries, saleId, firstId);
      assert items[..n] == LineItemsFor(entries[..n], saleId, firstId);
      LineItemsTotal(entries[..n], saleId, firstId);
    }
  }

  lemma LineItemsForStep(entries: seq<CartEntry>, saleId: nat, firstId: nat, i: nat)
    requires i < |entries|
    ensures LineItemsFor(entries[..i + 1], saleId, firstId) == LineItemsFor(entries[..i], saleId, firstId)
      + [LineItem(firstId + i, saleId, entries[i].productId, entries[i].quantity, entries[i].unitPrice)]
  {
    assert entries[..i + 1][..i] == entries[..i];
  }

  /** One more cart entry takes its quantity off its product's row, if there is one. */
  lemma StockAfterSaleStep(inventory: map<ProductId, int>, entries: seq<CartEntry>, i: nat)
    requires i < |entries|
    ensures var m := StockAfterSale(inventory, entries[..i]);
      var e := entries[i];
      StockAfterSale(inventory, entries[..i + 1])
        == if e.productId in m then m[e.productId := m[e.productId] - e.quantity] else m
  {
    assert entries[..i + 1][..i] == entries[..i];
  }

  datatype CheckoutOutcome =
    | EmptyCart             // nothing to sell; nothing was written
    | Completed(saleId: nat) // committed
    | RolledBack            // the storage failed; every pending write was discarded

  /** "Finish sale". On a non-empty cart it writes the sale (total = cart
      total, time = now), one line item per entry and the stock decrements as
      pending changes, then commits them all and empties the cart, or, when
      the storage fails (`storageFails`), discards them all and keeps the cart. */
  method FinishSale(db: Store, cart: Cart, now: Time, storageFails: bool) returns (outcome: CheckoutOutcome)
    requires db.Valid() && cart.Valid()
    modifies db, cart
    ensures db.Valid() && cart.Valid()
    ensures old(cart.entries) == [] ==> outcome == EmptyCart && unchanged(db) && unchanged(cart)
    ensures old(cart.entries) != [] && storageFails ==> outcome == RolledBack && unchanged(db) && unchanged(cart)
    ensures old(cart.entries) != [] && !storageFails ==>
      var saleId := NextId(SaleIds(old(db.sales)));
      && outcome == Completed(saleId)
      && saleId !in SaleIds(old(db.sales))
      && db.sales == old(db.sales) + [Sale(saleId, now, CartTotal(old(cart.entries)))]
      && db.lineItems == old(db.lineItems)
                         + LineItemsFor(old(cart.entries), saleId, NextId(LineItemIds(old(db.lineItems))))
      && db.inventory == StockAfterSale(old(db.inventory), old(cart.entries))
      && db.products == old(db.products) && db.expenses == old(db.expenses)
      && cart.entries == []
  {
    if cart.entries == [] {
      return EmptyCart;
    }
    var entries := cart.entries;
    var total := CartTotal(entries);
    var saleId := NextId(SaleIds(db.sales));
    var firstId := NextId(LineItemIds(db.lineItems));
    // pending changes of the unit of work
    var sales := db.sales + [Sale(saleId, now, total)];
    var items, inventory := PendingWrites(db.lineItems, db.inventory, entries, saleId, firstId);
    if storageFails {
      return RolledBack;
    }
    CommitKeepsConsistent(db.products, db.inventory, db.sales, db.lineItems, entries, saleId, now, firstId);
    db.sales, db.lineItems, db.inventory := sales, items, inventory;
    cart.entries := [];
    outcome := Completed(saleId);
  }

  /** The checkout loop: for each cart entry, in cart order, a new line item
      and the decrement of the product's inventory row (when it has one). */
  method PendingWrites(lineItems: seq<LineItem>, inventory: map<ProductId, int>, entries: seq<CartEntry>,
                       saleId: nat, firstId: nat)
    returns (items: seq<LineItem>, stock: map<ProductId, int>)
    ensures items == lineItems + LineItemsFor(entries, saleId, firstId)
    ensures stock == StockAfterSale(inventory, entries)
  {
    items, stock := lineItems, inventory;
    var i := 0;
    while i < |entries|
      invariant 0 <= i <= |entries|
      invariant items == lineItems + LineItemsFor(entries[..i], saleId, firstId)
      invariant stock == StockAfterSale(inventory, entries[..i])
    {
      var e := entries[i];
      LineItemsForStep(entries, saleId, firstId, i);
      StockAfterSaleStep(inventory, entries, i);
      items := items + [LineItem(firstId + i, saleId, e.productId, e.quantity, e.unitPrice)];
      if e.productId in stock {
        stock := stock[e.productId := stock[e.productId] - e.quantity];
      }
      i := i + 1;
    }
    assert entries[..i] == entries;
  }

  /** A committed checkout keeps the tables consistent; in particular every
      sale, the new one included, still totals its own line items. */
  lemma CommitKeepsConsistent(products: seq<Product>, inventory: map<ProductId, int>,
                              sales: seq<Sale>, lineItems: seq<LineItem>,
                              entries: seq<CartEntry>, saleId: nat, now: Time, firstId: nat)
    requires Consistent(products, inventory, sales, lineItems)
    requires saleId == NextId(SaleIds(sales))
    ensures Consistent(products, StockAfterSale(inventory, entries),
                       sales + [Sale(saleId, now, CartTotal(entries))],
                       lineItems + LineItemsFor(entries, saleId, firstId))
  {
    var sales' := sales + [Sale(saleId, now, CartTotal(entries))];
    var written := LineItemsFor(entries, saleId, firstId);
    var items' := lineItems + written;
    assert SaleIds(sales') == SaleIds(sales) + [saleId];
    DistinctAppend(SaleIds(sales), saleId);
    forall j | 0 <= j < |items'| ensures items'[j].saleId in SaleIds(sales') {
      if j < |lineItems| {
        assert items'[j] == lineItems[j];
      } else {
        assert items'[j] == written[j - |lineItems|];
      }
    }
    forall j | 0 <= j < |lineItems| ensures lineItems[j].saleId != saleId {
      var m :| 0 <= m < |sales| && SaleIds(sales)[m] == lineItems[j].saleId;
    }
    SaleItemsTotalOther(lineItems, saleId);
    LineItemsTotal(entries, saleId, firstId);
    forall i | 0 <= i < |sales'| ensures sales'[i].total == SaleItemsTotal(items', sales'[i].id) {
      SaleItemsTotalAppend(lineItems, written, sales'[i].id);
      if i < |sales| {
        assert sales[i].id != saleId by { assert SaleIds(sales)[i] == sales[i].id; }
        SaleItemsTotalOther(written, sales[i].id);
      }
    }
  }
}
