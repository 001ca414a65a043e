/** Facts about the built-in configuration: the seed catalog passes the
    catalog rules, and the demo accounts and discount settings are as stated. */
module SeedData {
  import opened Types
  import opened Constants
  import opened Catalog
  import opened ProductManagement

  /** The seed catalog has unique positive ids and names distinct ignoring case. */
  lemma InitialCatalogWellFormed()
    ensures CatalogWellFormed(InitialProducts)
  {
    var ps := InitialProducts;
    assert Lower(ps[0].name)[0] == 'p';
    assert Lower(ps[1].name)[0] == 'a' && Lower(ps[1].name)[1] == 'm';
    assert Lower(ps[2].name)[0] == 'c';
    assert Lower(ps[3].name)[0] == 'v';
    assert Lower(ps[4].name)[0] == 'a' && Lower(ps[4].name)[1] == 'n';
  }

  /** Every seed stock is positive and none is 1. */
  lemma InitialStocksAllowed()
    ensures forall p :: p in InitialProducts ==> p.stock > 0 && p.stock != 1
  {
  }

  /** Re-saving any seed product unchanged is accepted. */
  lemma InitialProductsResave(k: nat)
    requires k < |InitialProducts|
    ensures var p := InitialProducts[k];
            Save(InitialProducts, ProductForm(Some(p.id), p.name, p.price, p.stock, p.category)).alert.None?
  {
    InitialCatalogWellFormed();
    var p := InitialProducts[k];
    OwnNameIsNotDuplicate(InitialProducts, k, ProductForm(Some(p.id), p.name, p.price, p.stock, p.category));
  }

  /** The discount starts at 100000 rupiah and takes a tenth. */
  lemma DiscountSettings()
    ensures DiscountThreshold == 100000 && 10.0 * DiscountRate == 1.0
  {
  }

  /** One administrator (id 1) and one cashier (id 2), with different emails. */
  lemma MockUsersRoles()
    ensures |MockUsers| == 2
    ensures MockUsers[0].id == 1 && MockUsers[0].role == Admin
    ensures MockUsers[1].id == 2 && MockUsers[1].role == Kasir
    ensures MockUsers[0].email != MockUsers[1].email
  {
  }
}
