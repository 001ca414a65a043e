/** Queries over the product list that several components share. */
module Catalog {
  import opened Types

  /** Looks a product up by id, for the cart's stock conditions. With unique ids
      the product found is the only one with that id (`FindMember`). */
  function FindProduct(products: seq<Product>, id: int): (r: Option<Product>)
    ensures r.None? <==> forall i :: 0 <= i < |products| ==> products[i].id != id
    ensures r.Some? ==> r.value in products && r.value.id == id
  {
    if |products| == 0 then None
    else if products[0].id == id then Some(products[0])
    else FindProduct(products[1..], id)
  }

  /** No two products share an id. */
  predicate UniqueIds(products: seq<Product>) {
    forall i, j :: 0 <= i < j < |products| ==> products[i].id != products[j].id
  }

  /** Every product id is positive (so it is truthy in the source's `if (id)`). */
  predicate PositiveIds(products: seq<Product>) {
    forall i :: 0 <= i < |products| ==> products[i].id > 0
  }

  predicate StocksNonNegative(products: seq<Product>) {
    forall i :: 0 <= i < |products| ==> products[i].stock >= 0
  }

  function TotalStock(products: seq<Product>): (total: int) {
    if |products| == 0 then 0 else products[0].stock + TotalStock(products[1..])
  }

  /** With unique ids, looking a member up by its id finds that member. */
  lemma {:induction false} FindMember(products: seq<Product>, k: nat)
    requires UniqueIds(products) && k < |products|
    ensures FindProduct(products, products[k].id) == Some(products[k])
  {
    if k > 0 {
      assert products[0].id != products[k].id;
      assert products[1..][k-1] == products[k];
      FindMember(products[1..], k - 1);
    }
  }
}
