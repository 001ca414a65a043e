/** The application shell: committing a transaction (log and stock), the whole
    state the handlers act on, and which screen a tab shows. */
module App {
  import opened Types
  import opened Catalog
  import opened TransactionFlow
  import opened ProductManagement
  import Sidebar
  import Constants
  import SeedData
  import Dashboard

  // ------------------------------------------------------ stock settlement

  /** The quantity the first item for the product asks for, or 0 without one. */
  function QtyFor(items: seq<TransactionDetail>, productId: int): (q: int) {
    match FindLine(items, productId)
    case Some(k) => items[k].quantity
    case None => 0
  }

  /** The product after the sale: its stock less the quantity of the first matching item. */
  function Settled(p: Product, items: seq<TransactionDetail>): (after: Product) {
    match FindLine(items, p.id)
    case Some(k) => p.(stock := p.stock - items[k].quantity)
    case None => p
  }

  /** Every product's stock reduced by what the items sold of it. */
  function SettleStock(products: seq<Product>, items: seq<TransactionDetail>): (r: seq<Product>)
    ensures |r| == |products|
    ensures forall i :: 0 <= i < |products| ==>
              r[i].id == products[i].id && r[i].name == products[i].name
              && r[i].price == products[i].price && r[i].category == products[i].category
    ensures forall i :: 0 <= i < |products| ==> r[i].stock == products[i].stock - QtyFor(items, products[i].id)
    ensures forall i :: 0 <= i < |products| && !HasProduct(items, products[i].id) ==> r[i] == products[i]
  {
    if |products| == 0 then []
    else
      var rest := SettleStock(products[1..], items);
      assert forall i :: 1 <= i < |products| ==> products[i] == products[1..][i-1];
      [Settled(products[0], items)] + rest
  }

  /** The shell's handler for a completed sale: the transaction goes to the front
      of the log and the stock is settled. */
  function AddTransaction(products: seq<Product>, transactions: seq<Transaction>, tx: Transaction)
    : (r: (seq<Product>, seq<Transaction>))
    ensures |r.1| == |transactions| + 1 && r.1[0] == tx && r.1[1..] == transactions
    ensures r.0 == SettleStock(products, tx.items)
  {
    (SettleStock(products, tx.items), [tx] + transactions)
  }

  /** The units the items take from the catalog, product by product. */
  function Demand(products: seq<Product>, items: seq<TransactionDetail>): (units: int) {
    if |products| == 0 then 0 else QtyFor(items, products[0].id) + Demand(products[1..], items)
  }

  /** The units `q` counted once for every catalog entry carrying `id`. */
  function UnitsAt(products: seq<Product>, id: int, q: int): (units: int) {
    if |products| == 0 then 0 else (if products[0].id == id then q else 0) + UnitsAt(products[1..], id, q)
  }

  lemma {:induction false} SettleTotal(products: seq<Product>, items: seq<TransactionDetail>)
    ensures TotalStock(SettleStock(products, items)) == TotalStock(products) - Demand(products, items)
  {
    if |products| > 0 {
      SettleTotal(products[1..], items);
      var r := SettleStock(products, items);
      assert r[1..] == SettleStock(products[1..], items);
    }
  }

  lemma QtyForSnoc(items: seq<TransactionDetail>, last: TransactionDetail, id: int)
    requires !HasProduct(items, last.productId)
    ensures QtyFor(items + [last], id) == QtyFor(items, id) + (if id == last.productId then last.quantity else 0)
  {
    var s := items + [last];
    assert forall i :: 0 <= i < |items| ==> s[i] == items[i];
    match FindLine(items, id)
    case Some(k) => assert FindLine(s, id) == Some(k);
    case None =>
      if id == last.productId { assert s[|items|] == last; assert FindLine(s, id) == Some(|items|); }
      else { assert FindLine(s, id).None?; }
  }

  lemma {:induction false} DemandSnoc(products: seq<Product>, items: seq<TransactionDetail>, last: TransactionDetail)
    requires !HasProduct(items, last.productId)
    ensures Demand(products, items + [last]) == Demand(products, items) + UnitsAt(products, last.productId, last.quantity)
  {
    if |products| > 0 {
      QtyForSnoc(items, last, products[0].id);
      DemandSnoc(products[1..], items, last);
    }
  }

  lemma {:induction false} UnitsAtUnique(products: seq<Product>, id: int, q: int)
    requires UniqueIds(products) && FindProduct(products, id).Some?
    ensures UnitsAt(products, id, q) == q
  {
    var tail := products[1..];
    assert forall i :: 0 <= i < |tail| ==> tail[i] == products[i+1];
    if products[0].id == id {
      assert FindProduct(tail, id).None?;
      UnitsAtAbsent(tail, id, q);
    } else {
      UnitsAtUnique(tail, id, q);
    }
  }

  lemma {:induction false} UnitsAtAbsent(products: seq<Product>, id: int, q: int)
    requires FindProduct(products, id).None?
    ensures UnitsAt(products, id, q) == 0
  {
    if |products| > 0 {
      UnitsAtAbsent(products[1..], id, q);
    }
  }

  /** The last of distinct-product items is not among the ones before it. */
  lemma LastIsNew(items: seq<TransactionDetail>)
    requires DistinctProducts(items) && |items| > 0
    ensures DistinctProducts(items[..|items| - 1])
    ensures !HasProduct(items[..|items| - 1], items[|items| - 1].productId)
  {
  }

  /** When items name distinct catalog products, they take exactly their total quantity. */
  lemma {:induction false} DemandIsQuantities(products: seq<Product>, items: seq<TransactionDetail>)
    requires UniqueIds(products) && DistinctProducts(items)
    requires forall i :: 0 <= i < |items| ==> FindProduct(products, items[i].productId).Some?
    ensures Demand(products, items) == SumQuantities(items)
  {
    if |items| == 0 {
      DemandEmpty(products, items);
    } else {
      var init := items[..|items| - 1];
      var last := items[|items| - 1];
      assert items == init + [last];
      LastIsNew(items);
      DemandIsQuantities(products, init);
      DemandSnoc(products, init, last);
      UnitsAtUnique(products, last.productId, last.quantity);
    }
  }

  lemma {:induction false} DemandEmpty(products: seq<Product>, items: seq<TransactionDetail>)
    requires |items| == 0
    ensures Demand(products, items) == 0
  {
    if |products| > 0 {
      DemandEmpty(products[1..], items);
    }
  }

  /** Settling items with distinct product ids, all in a catalog with unique ids,
      lowers the total stock by exactly the number of units sold. */
  lemma SettleLowersTotalStock(products: seq<Product>, items: seq<TransactionDetail>)
    requires UniqueIds(products) && DistinctProducts(items)
    requires forall i :: 0 <= i < |items| ==> FindProduct(products, items[i].productId).Some?
    ensures TotalStock(SettleStock(products, items)) == TotalStock(products) - SumQuantities(items)
  {
    SettleTotal(products, items);
    DemandIsQuantities(products, items);
  }

  /** Items with no negative quantity never ask for a negative amount of a product. */
  lemma QtyForNonNegative(items: seq<TransactionDetail>, productId: int)
    requires QuantitiesNonNegative(items)
    ensures QtyFor(items, productId) >= 0
  {
    match FindLine(items, productId)
    case None =>
    case Some(k) => assert items[k].quantity >= 0;
  }

  /** A sale never takes a product off the low-stock table: stock only goes down. */
  lemma SaleKeepsLowStockRows(products: seq<Product>, items: seq<TransactionDetail>)
    requires QuantitiesNonNegative(items)
    ensures var after := SettleStock(products, items);
            forall i :: 0 <= i < |products| && products[i].stock < 20 ==>
              after[i] in Dashboard.RowProducts(Dashboard.LowStockRows(after))
  {
    var after := SettleStock(products, items);
    forall i | 0 <= i < |products| && products[i].stock < 20
      ensures after[i] in Dashboard.RowProducts(Dashboard.LowStockRows(after))
    {
      QtyForNonNegative(items, products[i].id);
      Dashboard.LowStockListed(after, i);
    }
  }

  // --------------------------------------------------------- whole state

  /** The state the handlers act on: the catalog, the log (newest first) and the cart. */
  datatype Pos = Pos(products: seq<Product>, transactions: seq<Transaction>, cart: Cart)

  /** Processing the cart and, when a transaction is produced, completing it:
      the log and stock are updated and the cart is emptied. */
  function Checkout(pos: Pos, user: User, txId: string, createdAt: string): (r: Update<Pos>)
    ensures r.alert.Some? <==> |pos.cart| < 3
    ensures r.alert.Some? ==> r.alert == Some(TooFewProducts) && r.state == pos
    ensures r.alert.None? ==>
              r.state.cart == []
              && |r.state.transactions| == |pos.transactions| + 1
              && r.state.transactions[1..] == pos.transactions
              && r.state.products == SettleStock(pos.products, pos.cart)
    ensures r.alert.None? ==>
              var tx := r.state.transactions[0];
              tx.id == txId && tx.createdAt == createdAt
              && tx.userId == user.id && tx.userName == user.name
              && tx.items == pos.cart
              && tx.totalPrice == SumSubtotals(pos.cart)
              && tx.discount == ComputeTotals(pos.cart).discount
              && tx.finalPrice == ComputeTotals(pos.cart).finalPrice
  {
    match ProcessTransaction(pos.cart, user, txId, createdAt)
    case None => Update(pos, Some(TooFewProducts))
    case Some(tx) =>
      var (products, transactions) := AddTransaction(pos.products, pos.transactions, tx);
      Update(Pos(products, transactions, []), None)
  }

  /** The whole-state invariant. Stock 1 is deliberately absent: only saves forbid it. */
  predicate PosInvariant(pos: Pos) {
    CatalogWellFormed(pos.products) && StocksNonNegative(pos.products) && CartInvariant(pos.cart, pos.products)
  }

  lemma InitialPosInvariant()
    ensures PosInvariant(Pos(Constants.InitialProducts, [], []))
  {
    SeedData.InitialCatalogWellFormed();
  }

  /** Settling stock keeps ids and names, hence a well-formed catalog stays well formed. */
  lemma SettlePreservesWellFormed(products: seq<Product>, items: seq<TransactionDetail>)
    requires CatalogWellFormed(products)
    ensures CatalogWellFormed(SettleStock(products, items))
  {
    var s := SettleStock(products, items);
    assert forall i :: 0 <= i < |products| ==> s[i].id == products[i].id && s[i].name == products[i].name;
  }

  /** Settling a cart that respects stock leaves no stock negative. */
  lemma SettleNonNegative(products: seq<Product>, cart: Cart)
    requires UniqueIds(products) && StocksNonNegative(products) && WithinStock(cart, products)
    ensures StocksNonNegative(SettleStock(products, cart))
  {
    var s := SettleStock(products, cart);
    forall i | 0 <= i < |products| ensures s[i].stock >= 0 {
      match FindLine(cart, products[i].id)
      case None =>
      case Some(k) =>
        FindMember(products, i);
        assert FindProduct(products, cart[k].productId) == Some(products[i]);
        assert cart[k].quantity <= products[i].stock;
    }
  }

  /** A committed cart leaves every stock non-negative without any pre-check, and
      keeps the catalog well formed. */
  lemma CheckoutPreservesInvariant(pos: Pos, user: User, txId: string, createdAt: string)
    requires PosInvariant(pos)
    ensures PosInvariant(Checkout(pos, user, txId, createdAt).state)
  {
    if |pos.cart| >= 3 {
      var after := Checkout(pos, user, txId, createdAt).state;
      assert after.products == SettleStock(pos.products, pos.cart) && after.cart == [];
      SettlePreservesWellFormed(pos.products, pos.cart);
      SettleNonNegative(pos.products, pos.cart);
      assert CartInvariant(after.cart, after.products);
    }
  }

  /** A committed cart lowers the catalog's total stock by exactly the units sold. */
  lemma CheckoutStockAccounting(pos: Pos, user: User, txId: string, createdAt: string)
    requires PosInvariant(pos) && |pos.cart| >= 3
    ensures TotalStock(Checkout(pos, user, txId, createdAt).state.products)
            == TotalStock(pos.products) - SumQuantities(pos.cart)
  {
    SettleLowersTotalStock(pos.products, pos.cart);
  }

  /** After a commit the dashboard's sales total grows by the cart's final price
      and its units sold by the cart's units. */
  lemma CheckoutUpdatesDashboard(pos: Pos, user: User, txId: string, createdAt: string)
    requires |pos.cart| >= 3
    ensures var after := Checkout(pos, user, txId, createdAt).state;
            Dashboard.TotalSales(after.transactions) == Dashboard.TotalSales(pos.transactions) + ComputeTotals(pos.cart).finalPrice
            && Dashboard.ItemsSold(after.transactions) == Dashboard.ItemsSold(pos.transactions) + SumQuantities(pos.cart)
            && |after.transactions| == |pos.transactions| + 1
  {
    var tx := ProcessTransaction(pos.cart, user, txId, createdAt).value;
    assert Checkout(pos, user, txId, createdAt).state.transactions == [tx] + pos.transactions;
    Dashboard.TotalSalesPrepend(tx, pos.transactions);
    Dashboard.ItemsSoldPrepend(tx, pos.transactions);
  }

  predicate UniqueTransactionIds(transactions: seq<Transaction>) {
    forall i, j :: 0 <= i < j < |transactions| ==> transactions[i].id != transactions[j].id
  }

  /** A commit under an id no logged transaction carries keeps the log's ids unique. */
  lemma CheckoutKeepsTransactionIdsUnique(pos: Pos, user: User, txId: string, createdAt: string)
    requires UniqueTransactionIds(pos.transactions)
    requires forall i :: 0 <= i < |pos.transactions| ==> pos.transactions[i].id != txId
    ensures UniqueTransactionIds(Checkout(pos, user, txId, createdAt).state.transactions)
  {
    var after := Checkout(pos, user, txId, createdAt).state.transactions;
    if |pos.cart| >= 3 {
      assert after[0].id == txId;
      assert forall i :: 1 <= i < |after| ==> after[i] == pos.transactions[i-1];
    }
  }

  /** Adding a catalog product to the cart keeps the whole-state invariant. */
  lemma AddToCartPreservesInvariant(pos: Pos, k: nat, lineId: string)
    requires PosInvariant(pos) && k < |pos.products| && FreshLineId(pos.cart, lineId)
    ensures PosInvariant(pos.(cart := AddToCart(pos.cart, pos.products[k], lineId).state))
  {
    AddPreservesInvariant(pos.cart, pos.products, k, lineId);
  }

  /** Saving from the product screen (where no cart exists) keeps the invariant,
      given the form's non-negative stock field. */
  lemma SavePreservesInvariant(pos: Pos, form: ProductForm)
    requires PosInvariant(pos) && pos.cart == [] && form.stock >= 0
    ensures PosInvariant(pos.(products := Save(pos.products, form).state))
  {
    SavePreservesWellFormed(pos.products, form);
  }

  /** Deleting from the product screen keeps the invariant. */
  lemma DeletePreservesInvariant(pos: Pos, id: int)
    requires PosInvariant(pos) && pos.cart == []
    ensures PosInvariant(pos.(products := Delete(pos.products, id)))
  {
    DeletePreservesWellFormed(pos.products, id);
  }

  /** A sale may leave a product at stock 1, which a save would refuse:
      the stock-1 rule is a rule on edits, not an invariant of the catalog. */
  lemma SaleCanLeaveStockOne()
    ensures var pos := Pos([Product(1, "A", 3, 10, "c"), Product(2, "B", 5, 10, "c"), Product(3, "C", 5, 10, "c")], [],
                           [TransactionDetail("x", 1, "A", 2, 10, 20), TransactionDetail("y", 2, "B", 1, 10, 10),
                            TransactionDetail("z", 3, "C", 1, 10, 10)]);
            PosInvariant(pos)
            && var after := Checkout(pos, User(2, "K", "k", Kasir), "t", "d").state;
               PosInvariant(after) && after.products[0].stock == 1
  {
    var pos := Pos([Product(1, "A", 3, 10, "c"), Product(2, "B", 5, 10, "c"), Product(3, "C", 5, 10, "c")], [],
                   [TransactionDetail("x", 1, "A", 2, 10, 20), TransactionDetail("y", 2, "B", 1, 10, 10),
                    TransactionDetail("z", 3, "C", 1, 10, 10)]);
    assert Lower("A")[0] == 'a' && Lower("B")[0] == 'b' && Lower("C")[0] == 'c';
    assert PosInvariant(pos);
    CheckoutPreservesInvariant(pos, User(2, "K", "k", Kasir), "t", "d");
    assert FindLine(pos.cart, 1) == Some(0);
  }

  // ------------------------------------------------------------- screens

  datatype View = DashboardView | ProductManagementView | TransactionFlowView | HistoryView | SchemaView

  /** The screen the main area renders for the active tab and the user's role. */
  function Screen(tab: string, role: Role): (v: Option<View>)
    ensures v == Some(ProductManagementView) <==> tab == "products" && role == Admin
    ensures v.None? <==> tab !in ["dashboard", "transaction-new", "history", "schema"] && (tab != "products" || role != Admin)
  {
    if tab == "dashboard" then Some(DashboardView)
    else if tab == "products" && role == Admin then Some(ProductManagementView)
    else if tab == "transaction-new" then Some(TransactionFlowView)
    else if tab == "history" then Some(HistoryView)
    else if tab == "schema" then Some(SchemaView)
    else None
  }

  /** Every tab the menu offers a role leads to a screen. */
  lemma MenuTabsHaveScreens(role: Role)
    ensures forall m :: m in Sidebar.VisibleMenu(role) ==> Screen(m.id, role).Some?
  {
    Sidebar.MenuRoles(role);
  }
}
