/** Catalog editing: the save handler (duplicate-name and stock-1 checks,
    update by id, create with a fresh id) and the delete handler. */
module ProductManagement {
  import opened Types
  import opened Seqs
  import opened Catalog

  /** ASCII lower-casing of one character. */
  function LowerChar(c: char): char {
    if 'A' <= c <= 'Z' then (c as int + 32) as char else c
  }

  /** Lower-cases a name, character by character. */
  function Lower(s: string): (r: string)
    ensures |r| == |s|
    ensures forall i :: 0 <= i < |r| ==> !('A' <= r[i] <= 'Z')
    ensures forall i :: 0 <= i < |s| && !('A' <= s[i] <= 'Z') ==> r[i] == s[i]
    ensures forall i :: 0 <= i < |s| && 'A' <= s[i] <= 'Z' ==> r[i] as int == s[i] as int + 32
  {
    seq(|s|, i requires 0 <= i < |s| => LowerChar(s[i]))
  }

  /** The edit form's content. `id` is absent when the form creates a product. */
  datatype ProductForm = ProductForm(id: Option<int>, name: string, price: int, stock: int, category: string)

  /** The source's `if (id)`: an id is present and is not 0. */
  predicate IsTruthyId(id: Option<int>) {
    id.Some? && id.value != 0
  }

  /** Some product other than the one being edited has the form's name, ignoring case. */
  predicate IsDuplicateName(products: seq<Product>, form: ProductForm) {
    exists i :: 0 <= i < |products| && Lower(products[i].name) == Lower(form.name) && Some(products[i].id) != form.id
  }

  /** No two products have the same name, ignoring case. */
  predicate DistinctNames(products: seq<Product>) {
    forall i, j :: 0 <= i < j < |products| ==> Lower(products[i].name) != Lower(products[j].name)
  }

  /** What every save keeps: unique positive ids and case-insensitively distinct names. */
  predicate CatalogWellFormed(products: seq<Product>) {
    UniqueIds(products) && PositiveIds(products) && DistinctNames(products)
  }

  /** The largest id in a non-empty catalog. */
  function MaxId(products: seq<Product>): (m: int)
    requires |products| > 0
    ensures forall i :: 0 <= i < |products| ==> products[i].id <= m
    ensures exists i :: 0 <= i < |products| && products[i].id == m
  {
    if |products| == 1 then products[0].id
    else
      var rest := MaxId(products[1..]);
      assert forall i :: 1 <= i < |products| ==> products[i] == products[1..][i-1];
      if products[0].id >= rest then products[0].id else rest
  }

  /** The id a created product receives: one past the largest, or 1 for an empty catalog. */
  function NextId(products: seq<Product>): (id: int)
    ensures forall i :: 0 <= i < |products| ==> products[i].id < id
    ensures |products| == 0 ==> id == 1
    ensures |products| > 0 ==> exists i :: 0 <= i < |products| && products[i].id == id - 1
  {
    if |products| > 0 then MaxId(products) + 1 else 1
  }

  /** The catalog with the product of the given id overwritten by the form's fields. */
  function ReplaceById(products: seq<Product>, id: int, form: ProductForm): (r: seq<Product>)
    ensures |r| == |products|
    ensures forall i :: 0 <= i < |products| && products[i].id != id ==> r[i] == products[i]
    ensures forall i :: 0 <= i < |products| && products[i].id == id ==>
              r[i] == Product(id, form.name, form.stock, form.price, form.category)
  {
    seq(|products|, i requires 0 <= i < |products| =>
      if products[i].id == id then products[i].(name := form.name, price := form.price, stock := form.stock, category := form.category)
      else products[i])
  }

  /** The save handler. */
  function Save(products: seq<Product>, form: ProductForm): (r: Update<seq<Product>>)
    ensures r.alert.Some? ==> r.state == products
    ensures r.alert == Some(DuplicateName) <==> IsDuplicateName(products, form)
    ensures r.alert == Some(StockIsOne) <==> !IsDuplicateName(products, form) && form.stock == 1
    ensures r.alert.None? <==> !IsDuplicateName(products, form) && form.stock != 1
    ensures r.alert.None? && IsTruthyId(form.id) ==>
              |r.state| == |products|
              && (forall i :: 0 <= i < |products| && products[i].id != form.id.value ==> r.state[i] == products[i])
              && (forall i :: 0 <= i < |products| && products[i].id == form.id.value ==>
                    r.state[i] == Product(form.id.value, form.name, form.stock, form.price, form.category))
    ensures r.alert.None? && !IsTruthyId(form.id) ==>
              |r.state| == |products| + 1 && r.state[..|products|] == products
              && r.state[|products|] == Product(NextId(products), form.name, form.stock, form.price, form.category)
              && forall i :: 0 <= i < |products| ==> products[i].id != r.state[|products|].id
  {
    if IsDuplicateName(products, form) then Update(products, Some(DuplicateName))
    else if form.stock == 1 then Update(products, Some(StockIsOne))
    else if IsTruthyId(form.id) then Update(ReplaceById(products, form.id.value, form), None)
    else Update(products + [Product(NextId(products), form.name, form.stock, form.price, form.category)], None)
  }

  /** The delete handler (the confirmation dialog is left to the caller). */
  function Delete(products: seq<Product>, id: int): (r: seq<Product>)
    ensures forall p :: p in r ==> p in products && p.id != id
    ensures forall p :: p in products && p.id != id ==> multiset(r)[p] == multiset(products)[p]
    ensures IsSubsequence(r, products)
  {
    var keep := (p: Product) => p.id != id;
    FilterCount(products, keep);
    FilterSubsequence(products, keep);
    Filter(products, keep)
  }

  /** Deleting an id that occurs exactly once removes exactly one product. */
  lemma DeleteRemovesOne(products: seq<Product>, k: nat)
    requires UniqueIds(products) && k < |products|
    ensures |Delete(products, products[k].id)| == |products| - 1
    ensures products[k] !in Delete(products, products[k].id)
  {
    FilterDropsOne(products, (p: Product) => p.id != products[k].id, k);
  }

  /** Re-saving a product under its own name, in any letter case, is not a duplicate. */
  lemma OwnNameIsNotDuplicate(products: seq<Product>, k: nat, form: ProductForm)
    requires CatalogWellFormed(products) && k < |products|
    requires form.id == Some(products[k].id)
    requires Lower(form.name) == Lower(products[k].name)
    ensures !IsDuplicateName(products, form)
  {
  }

  /** A save, accepted or not, keeps the catalog well formed. */
  lemma SavePreservesWellFormed(products: seq<Product>, form: ProductForm)
    requires CatalogWellFormed(products)
    ensures CatalogWellFormed(Save(products, form).state)
  {
    if !IsDuplicateName(products, form) && form.stock != 1 {
      if IsTruthyId(form.id) {
        UpdateKeepsWellFormed(products, form);
      } else {
        CreateKeepsWellFormed(products, form);
      }
    }
  }

  /** Updating by id, when no other product has the name, keeps the catalog well formed. */
  lemma UpdateKeepsWellFormed(products: seq<Product>, form: ProductForm)
    requires CatalogWellFormed(products) && !IsDuplicateName(products, form) && form.id.Some?
    ensures CatalogWellFormed(ReplaceById(products, form.id.value, form))
  {
    var s := ReplaceById(products, form.id.value, form);
    var id := form.id.value;
    forall i, j | 0 <= i < j < |s|
      ensures Lower(s[i].name) != Lower(s[j].name)
    {
      assert !(products[i].id == id && products[j].id == id);
      if products[i].id == id {
        assert Lower(products[j].name) != Lower(form.name);
      } else if products[j].id == id {
        assert Lower(products[i].name) != Lower(form.name);
      }
    }
  }

  /** Appending a product with a fresh id, when no product has the name, keeps the catalog well formed. */
  lemma CreateKeepsWellFormed(products: seq<Product>, form: ProductForm)
    requires CatalogWellFormed(products) && !IsDuplicateName(products, form) && !IsTruthyId(form.id)
    ensures CatalogWellFormed(products + [Product(NextId(products), form.name, form.stock, form.price, form.category)])
  {
    var n := |products|;
    var s := products + [Product(NextId(products), form.name, form.stock, form.price, form.category)];
    assert forall i :: 0 <= i < n ==> s[i] == products[i];
    assert forall i :: 0 <= i < n ==> Some(products[i].id) != form.id;
    assert forall i :: 0 <= i < n ==> Lower(products[i].name) != Lower(s[n].name);
    assert s[n].id > 0 by {
      if n > 0 { var i :| 0 <= i < n && products[i].id == s[n].id - 1; }
    }
  }

  /** A delete keeps the catalog well formed. */
  lemma DeletePreservesWellFormed(products: seq<Product>, id: int)
    requires CatalogWellFormed(products)
    ensures CatalogWellFormed(Delete(products, id))
  {
    var keep := (p: Product) => p.id != id;
    FilterPairwise(products, keep, (a: Product, b: Product) => a.id != b.id);
    FilterPairwise(products, keep, (a: Product, b: Product) => Lower(a.name) != Lower(b.name));
  }
}
