/** The checkout screen: the cart, its totals, and the construction of a
    transaction from it. */
module TransactionFlow {
  import opened Types
  import opened Seqs
  import opened Catalog
  import Constants

  /** The lines of the in-progress sale, in the order they were first added. */
  type Cart = seq<TransactionDetail>

  // ---------------------------------------------------------------- totals

  /** The sum of the line subtotals, folded from the left as `reduce` does. */
  function SumSubtotals(cart: Cart): (total: int) {
    if |cart| == 0 then 0 else SumSubtotals(cart[..|cart| - 1]) + cart[|cart| - 1].subtotal
  }

  /** The cart total as the screen computes it, one line at a time. */
  method TotalPrice(cart: Cart) returns (acc: int)
    ensures acc == SumSubtotals(cart)
  {
    acc := 0;
    var i := 0;
    while i < |cart|
      invariant 0 <= i <= |cart|
      invariant acc == SumSubtotals(cart[..i])
    {
      assert cart[..i + 1][..i] == cart[..i];
      acc := acc + cart[i].subtotal;
      i := i + 1;
    }
    assert cart[..|cart|] == cart;
  }

  /** The discount for a total: ten percent at or above the threshold, else nothing. */
  function Discount(totalPrice: int): (d: real)
    ensures totalPrice >= 100000 ==> 10.0 * d == totalPrice as real
    ensures totalPrice < 100000 ==> d == 0.0
  {
    if totalPrice >= Constants.DiscountThreshold then totalPrice as real * Constants.DiscountRate else 0.0
  }

  datatype Totals = Totals(totalPrice: int, discount: real, finalPrice: real)

  /** The totals shown beside the cart and copied into the transaction. */
  function ComputeTotals(cart: Cart): (t: Totals)
    ensures t.totalPrice == SumSubtotals(cart)
    ensures t.totalPrice >= 100000 ==> 10.0 * t.discount == t.totalPrice as real
    ensures t.totalPrice < 100000 ==> t.discount == 0.0
    ensures t.finalPrice + t.discount == t.totalPrice as real
    ensures t.totalPrice >= 0 ==> 0.0 <= t.finalPrice <= t.totalPrice as real
  {
    var total := SumSubtotals(cart);
    var discount := Discount(total);
    Totals(total, discount, total as real - discount)
  }

  /** Lines whose subtotal is quantity times a non-negative price have a non-negative total. */
  lemma {:induction false} TotalNonNegative(cart: Cart)
    requires forall i :: 0 <= i < |cart| ==> cart[i].quantity >= 0 && cart[i].price >= 0 && cart[i].subtotal == cart[i].quantity * cart[i].price
    ensures SumSubtotals(cart) >= 0
  {
    if |cart| > 0 {
      var init := cart[..|cart| - 1];
      assert forall i :: 0 <= i < |init| ==> init[i] == cart[i];
      TotalNonNegative(init);
    }
  }

  /** No item has a negative quantity. */
  predicate QuantitiesNonNegative(items: seq<TransactionDetail>) {
    forall i :: 0 <= i < |items| ==> items[i].quantity >= 0
  }

  /** The number of units over a list of lines, folded from the left. */
  function SumQuantities(items: seq<TransactionDetail>): (units: int)
    ensures QuantitiesNonNegative(items) ==> units >= 0
  {
    if |items| == 0 then 0 else SumQuantities(items[..|items| - 1]) + items[|items| - 1].quantity
  }

  /** The unit count of a concatenation is the sum of the two counts. */
  lemma {:induction false} SumQuantitiesAppend(a: seq<TransactionDetail>, b: seq<TransactionDetail>)
    ensures SumQuantities(a + b) == SumQuantities(a) + SumQuantities(b)
  {
    if |b| > 0 {
      assert (a + b)[..|a + b| - 1] == a + b[..|b| - 1];
      SumQuantitiesAppend(a, b[..|b| - 1]);
    } else {
      assert a + b == a;
    }
  }

  // ------------------------------------------------------------------ cart

  /** The index of the first line for the product, as `cart.find` locates it. */
  function FindLine(cart: Cart, productId: int): (r: Option<nat>)
    ensures r.None? <==> forall i :: 0 <= i < |cart| ==> cart[i].productId != productId
    ensures r.Some? ==> r.value < |cart| && cart[r.value].productId == productId
    ensures r.Some? ==> forall i :: 0 <= i < r.value ==> cart[i].productId != productId
  {
    if |cart| == 0 then None
    else if cart[0].productId == productId then Some(0)
    else match FindLine(cart[1..], productId)
      case None => None
      case Some(k) => Some(k + 1)
  }

  /** A line for the product, created by its first addition. */
  function NewLine(product: Product, lineId: string): (line: TransactionDetail) {
    TransactionDetail(lineId, product.id, product.name, 1, product.price, product.price)
  }

  /** A line one unit larger, its subtotal recomputed from its own unit price. */
  function Incremented(line: TransactionDetail): (bigger: TransactionDetail) {
    line.(quantity := line.quantity + 1, subtotal := (line.quantity + 1) * line.price)
  }

  /** Every line of the product gains one unit; every other line is left alone. */
  function IncrementProduct(cart: Cart, productId: int): (r: Cart)
    ensures |r| == |cart|
    ensures forall i :: 0 <= i < |cart| && cart[i].productId != productId ==> r[i] == cart[i]
    ensures forall i :: 0 <= i < |cart| && cart[i].productId == productId ==>
              r[i].id == cart[i].id && r[i].productId == productId && r[i].productName == cart[i].productName
              && r[i].price == cart[i].price && r[i].quantity == cart[i].quantity + 1
              && r[i].subtotal == r[i].quantity * r[i].price
  {
    seq(|cart|, i requires 0 <= i < |cart| =>
      if cart[i].productId == productId then Incremented(cart[i]) else cart[i])
  }

  predicate HasProduct(cart: Cart, productId: int) {
    exists i :: 0 <= i < |cart| && cart[i].productId == productId
  }

  predicate FreshLineId(cart: Cart, lineId: string) {
    forall i :: 0 <= i < |cart| ==> cart[i].id != lineId
  }

  /** Adding one unit of a product to the cart. `lineId` stands for the random id a new line receives. */
  function AddToCart(cart: Cart, product: Product, lineId: string): (r: Update<Cart>)
    ensures r.alert.Some? ==> r.state == cart
    ensures r.alert.Some? ==> r.alert == Some(OutOfStock) || r.alert == Some(InsufficientStock)
    ensures r.alert == Some(OutOfStock) <==> product.stock <= 0
    ensures r.alert == Some(InsufficientStock) <==>
              product.stock > 0
              && (exists i :: 0 <= i < |cart| && cart[i].productId == product.id && cart[i].quantity >= product.stock
                    && forall j :: 0 <= j < i ==> cart[j].productId != product.id)
    ensures r.alert.None? ==> product.stock > 0
    ensures r.alert.None? && !HasProduct(cart, product.id) ==>
              r.state == cart + [TransactionDetail(lineId, product.id, product.name, 1, product.price, product.price)]
    ensures r.alert.None? && HasProduct(cart, product.id) ==>
              |r.state| == |cart|
              && (forall i :: 0 <= i < |cart| && cart[i].productId != product.id ==> r.state[i] == cart[i])
              && (forall i :: 0 <= i < |cart| && cart[i].productId == product.id ==>
                    r.state[i].quantity == cart[i].quantity + 1
                    && r.state[i].subtotal == r.state[i].quantity * cart[i].price
                    && r.state[i] == cart[i].(quantity := r.state[i].quantity, subtotal := r.state[i].subtotal))
  {
    if product.stock <= 0 then Update(cart, Some(OutOfStock))
    else match FindLine(cart, product.id)
      case Some(k) =>
        if cart[k].quantity >= product.stock then Update(cart, Some(InsufficientStock))
        else Update(IncrementProduct(cart, product.id), None)
      case None => Update(cart + [NewLine(product, lineId)], None)
  }

  /** Removing the lines with the given line id. */
  function RemoveFromCart(cart: Cart, lineId: string): (r: Cart)
    ensures forall l :: l in r ==> l in cart && l.id != lineId
    ensures forall l :: l in cart && l.id != lineId ==> multiset(r)[l] == multiset(cart)[l]
    ensures IsSubsequence(r, cart)
  {
    var keep := (l: TransactionDetail) => l.id != lineId;
    FilterCount(cart, keep);
    FilterSubsequence(cart, keep);
    Filter(cart, keep)
  }

  // -------------------------------------------------------- cart invariant

  predicate DistinctProducts(cart: Cart) {
    forall i, j :: 0 <= i < j < |cart| ==> cart[i].productId != cart[j].productId
  }

  predicate DistinctLineIds(cart: Cart) {
    forall i, j :: 0 <= i < j < |cart| ==> cart[i].id != cart[j].id
  }

  /** A line holds at least one unit and its subtotal is quantity times unit price. */
  predicate LineConsistent(line: TransactionDetail) {
    line.quantity >= 1 && line.subtotal == line.quantity * line.price
  }

  /** Every line refers to a catalog product and asks for no more than its stock. */
  predicate WithinStock(cart: Cart, catalog: seq<Product>) {
    forall i :: 0 <= i < |cart| ==>
      FindProduct(catalog, cart[i].productId).Some?
      && cart[i].quantity <= FindProduct(catalog, cart[i].productId).value.stock
  }

  /** What the cart handlers keep true of the cart against the catalog it was built from. */
  predicate CartInvariant(cart: Cart, catalog: seq<Product>) {
    && DistinctProducts(cart)
    && DistinctLineIds(cart)
    && (forall i :: 0 <= i < |cart| ==> LineConsistent(cart[i]))
    && WithinStock(cart, catalog)
  }

  /** Adding a catalog product under a fresh line id keeps the cart invariant. */
  lemma AddPreservesInvariant(cart: Cart, catalog: seq<Product>, k: nat, lineId: string)
    requires UniqueIds(catalog) && k < |catalog|
    requires CartInvariant(cart, catalog)
    requires FreshLineId(cart, lineId)
    ensures CartInvariant(AddToCart(cart, catalog[k], lineId).state, catalog)
  {
    var product := catalog[k];
    FindMember(catalog, k);
    if product.stock > 0 {
      match FindLine(cart, product.id)
      case Some(i) =>
        if cart[i].quantity < product.stock {
          assert AddToCart(cart, product, lineId).state == IncrementProduct(cart, product.id);
          IncrementPreservesInvariant(cart, catalog, product, i);
        }
      case None =>
        assert !HasProduct(cart, product.id);
        assert AddToCart(cart, product, lineId).state == cart + [NewLine(product, lineId)];
        AppendPreservesInvariant(cart, catalog, product, lineId);
    }
  }

  lemma AppendPreservesInvariant(cart: Cart, catalog: seq<Product>, product: Product, lineId: string)
    requires CartInvariant(cart, catalog)
    requires FreshLineId(cart, lineId) && !HasProduct(cart, product.id)
    requires FindProduct(catalog, product.id) == Some(product) && product.stock >= 1
    ensures CartInvariant(cart + [NewLine(product, lineId)], catalog)
  {
    var s := cart + [NewLine(product, lineId)];
    assert forall i :: 0 <= i < |cart| ==> s[i] == cart[i];
  }

  lemma IncrementPreservesInvariant(cart: Cart, catalog: seq<Product>, product: Product, k: nat)
    requires CartInvariant(cart, catalog)
    requires FindProduct(catalog, product.id) == Some(product)
    requires k < |cart| && cart[k].productId == product.id && cart[k].quantity < product.stock
    ensures CartInvariant(IncrementProduct(cart, product.id), catalog)
  {
    var s := IncrementProduct(cart, product.id);
    assert forall i :: 0 <= i < |cart| ==> s[i].productId == cart[i].productId && s[i].id == cart[i].id;
    forall i | 0 <= i < |s|
      ensures LineConsistent(s[i])
      ensures s[i].quantity <= FindProduct(catalog, s[i].productId).value.stock
    {
      if cart[i].productId == product.id {
        assert i == k;
      }
    }
  }

  /** Removing a line keeps the cart invariant. */
  lemma RemovePreservesInvariant(cart: Cart, catalog: seq<Product>, lineId: string)
    requires CartInvariant(cart, catalog)
    ensures CartInvariant(RemoveFromCart(cart, lineId), catalog)
  {
    var keep := (l: TransactionDetail) => l.id != lineId;
    FilterPairwise(cart, keep, (a: TransactionDetail, b: TransactionDetail) => a.productId != b.productId);
    FilterPairwise(cart, keep, (a: TransactionDetail, b: TransactionDetail) => a.id != b.id);
    var r := RemoveFromCart(cart, lineId);
    forall i | 0 <= i < |r|
      ensures LineConsistent(r[i])
      ensures FindProduct(catalog, r[i].productId).Some?
      ensures r[i].quantity <= FindProduct(catalog, r[i].productId).value.stock
    {
      assert r[i] in cart;
    }
  }

  /** Removing an existing line id, when line ids are distinct, drops exactly one line. */
  lemma RemoveDropsOneLine(cart: Cart, k: nat)
    requires DistinctLineIds(cart) && k < |cart|
    ensures |RemoveFromCart(cart, cart[k].id)| == |cart| - 1
  {
    FilterDropsOne(cart, (l: TransactionDetail) => l.id != cart[k].id, k);
  }

  /** Adding the same product twice to a cart without it yields one line of two units. */
  lemma AddTwiceMerges(cart: Cart, product: Product, id1: string, id2: string)
    requires !HasProduct(cart, product.id) && product.stock >= 2
    ensures AddToCart(AddToCart(cart, product, id1).state, product, id2)
            == Update(cart + [TransactionDetail(id1, product.id, product.name, 2, product.price, 2 * product.price)], None)
  {
    var once := AddToCart(cart, product, id1).state;
    assert once == cart + [NewLine(product, id1)];
    assert forall i :: 0 <= i < |cart| ==> once[i] == cart[i];
    assert once[|cart|].productId == product.id;
    assert FindLine(once, product.id) == Some(|cart|);
    assert HasProduct(once, product.id);
    var twice := AddToCart(once, product, id2).state;
    var expected := cart + [TransactionDetail(id1, product.id, product.name, 2, product.price, 2 * product.price)];
    assert |twice| == |expected|;
    forall i | 0 <= i < |twice| ensures twice[i] == expected[i] {
      if i < |cart| {
        assert once[i] == cart[i] && cart[i].productId != product.id;
      }
    }
    assert twice == expected;
  }

  // --------------------------------------------------------- checkout gate

  /** The set of products the cart holds. */
  function ProductIds(cart: Cart): (r: set<int>)
    ensures forall id :: id in r <==> exists i :: 0 <= i < |cart| && cart[i].productId == id
  {
    if |cart| == 0 then {}
    else
      var rest := ProductIds(cart[1..]);
      assert forall i :: 1 <= i < |cart| ==> cart[i] == cart[1..][i-1];
      {cart[0].productId} + rest
  }

  /** With one line per product, the number of lines is the number of distinct products. */
  lemma {:induction false} LinesAreDistinctProducts(cart: Cart)
    requires DistinctProducts(cart)
    ensures |ProductIds(cart)| == |cart|
  {
    if |cart| > 0 {
      var tail := cart[1..];
      assert forall i :: 0 <= i < |tail| ==> tail[i] == cart[i+1];
      LinesAreDistinctProducts(tail);
      assert cart[0].productId !in ProductIds(tail);
    }
  }

  /** The transaction the screen builds from the cart, or none when the cart has
      fewer than 3 lines. `txId` and `createdAt` stand for the clock-derived values. */
  function ProcessTransaction(cart: Cart, user: User, txId: string, createdAt: string): (r: Option<Transaction>)
    ensures r.None? <==> |cart| < 3
    ensures r.Some? ==>
              r.value.items == cart
              && r.value.id == txId && r.value.createdAt == createdAt
              && r.value.userId == user.id && r.value.userName == user.name
              && r.value.totalPrice == SumSubtotals(cart)
              && r.value.discount == ComputeTotals(cart).discount
              && r.value.finalPrice == ComputeTotals(cart).finalPrice
    ensures r.Some? ==>
              (r.value.totalPrice >= 100000 ==> 10.0 * r.value.discount == r.value.totalPrice as real)
              && (r.value.totalPrice < 100000 ==> r.value.discount == 0.0)
              && r.value.finalPrice + r.value.discount == r.value.totalPrice as real
  {
    if |cart| < 3 then None
    else
      var t := ComputeTotals(cart);
      Some(Transaction(txId, user.id, user.name, cart, t.totalPrice, t.discount, t.finalPrice, createdAt))
  }

  /** Under the cart invariant the gate on the number of lines is a gate on the
      number of distinct products: a transaction exists exactly when the cart holds
      at least 3 different products. */
  lemma GateCountsDistinctProducts(cart: Cart, catalog: seq<Product>, user: User, txId: string, createdAt: string)
    requires CartInvariant(cart, catalog)
    ensures ProcessTransaction(cart, user, txId, createdAt).Some? <==> |ProductIds(cart)| >= 3
  {
    LinesAreDistinctProducts(cart);
  }
}
