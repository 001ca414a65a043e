/** The navigation menu and the role filter that decides which entries a user sees. */
module Sidebar {
  import opened Types
  import opened Seqs

  /** A menu entry: the tab it opens, its title, and the roles allowed to see it. */
  datatype MenuItem = MenuItem(id: string, title: string, roles: seq<Role>)

  const MenuItems: seq<MenuItem> := [
    MenuItem("dashboard", "Dashboard", [Admin, Kasir]),
    MenuItem("products", "Data Produk", [Admin]),
    MenuItem("transaction-new", "Kasir Penjualan", [Admin, Kasir]),
    MenuItem("history", "Riwayat Transaksi", [Admin, Kasir]),
    MenuItem("schema", "Database Design", [Admin])
  ]

  /** The table offers five distinct tabs; every entry is open to an administrator,
      and a cashier is listed on the dashboard, checkout and history entries only. */
  lemma MenuTable()
    ensures |MenuItems| == 5
    ensures forall i, j :: 0 <= i < j < |MenuItems| ==> MenuItems[i].id != MenuItems[j].id
    ensures forall m :: m in MenuItems ==> Admin in m.roles
    ensures forall m :: m in MenuItems ==> (Kasir in m.roles <==> m.id in ["dashboard", "transaction-new", "history"])
  {
    forall m | m in MenuItems
      ensures Admin in m.roles && (Kasir in m.roles <==> m.id in ["dashboard", "transaction-new", "history"])
    {
      MenuEntries(m);
    }
  }

  /** The test an entry passes when it lists the role. */
  function ListsRole(role: Role): MenuItem -> bool {
    (m: MenuItem) => role in m.roles
  }

  /** The entries listed for a role, in table order. */
  function VisibleMenu(role: Role): (r: seq<MenuItem>)
    ensures forall m :: m in r <==> m in MenuItems && role in m.roles
  {
    Filter(MenuItems, ListsRole(role))
  }

  /** The tab ids of a list of entries, entry by entry. */
  function Ids(menu: seq<MenuItem>): (r: seq<string>) {
    seq(|menu|, i requires 0 <= i < |menu| => menu[i].id)
  }

  /** An administrator sees the whole table. */
  lemma AdminSeesAll()
    ensures VisibleMenu(Admin) == MenuItems
  {
    FilterKeepsAll(MenuItems, ListsRole(Admin));
  }

  /** A cashier sees exactly the dashboard, the checkout screen and the history, in that order. */
  lemma KasirMenu()
    ensures Ids(VisibleMenu(Kasir)) == ["dashboard", "transaction-new", "history"]
  {
    KasirVisible();
    IdsOfThree(MenuItems[0], MenuItems[2], MenuItems[3]);
  }

  lemma IdsOfThree(a: MenuItem, b: MenuItem, c: MenuItem)
    ensures Ids([a, b, c]) == [a.id, b.id, c.id]
  {
    var ids := Ids([a, b, c]);
    assert |ids| == 3 && ids[0] == a.id && ids[1] == b.id && ids[2] == c.id;
  }

  lemma KasirVisible()
    ensures VisibleMenu(Kasir) == [MenuItems[0], MenuItems[2], MenuItems[3]]
  {
    var f := ListsRole(Kasir);
    var m := MenuItems;
    KasirFromSecond();
    assert f(m[0]);
    FilterCons(m, f);
  }

  lemma KasirFromSecond()
    ensures Filter(MenuItems[1..], ListsRole(Kasir)) == [MenuItems[2], MenuItems[3]]
  {
    var f := ListsRole(Kasir);
    var m := MenuItems;
    KasirFromThird();
    var s1 := m[1..];
    assert s1[0] == m[1] && !f(m[1]) && s1[1..] == m[2..];
    FilterCons(s1, f);
  }

  lemma KasirFromThird()
    ensures Filter(MenuItems[2..], ListsRole(Kasir)) == [MenuItems[2], MenuItems[3]]
  {
    var f := ListsRole(Kasir);
    var m := MenuItems;
    var s4 := m[4..];
    assert s4 == [m[4]] && !f(s4[0]) && s4[1..] == [];
    FilterCons(s4, f);
    var s3 := m[3..];
    assert s3[0] == m[3] && f(m[3]) && s3[1..] == s4;
    FilterCons(s3, f);
    var s2 := m[2..];
    assert s2[0] == m[2] && f(m[2]) && s2[1..] == s3;
    FilterCons(s2, f);
  }

  /** Each entry of the table, spelled out. */
  lemma MenuEntries(m: MenuItem)
    requires m in MenuItems
    ensures m == MenuItems[0] || m == MenuItems[1] || m == MenuItems[2] || m == MenuItems[3] || m == MenuItems[4]
  {
  }

  /** The product and schema entries are shown to administrators only. */
  lemma AdminOnlyEntries(role: Role)
    ensures forall m :: m in VisibleMenu(role) && (m.id == "products" || m.id == "schema") ==> role == Admin
  {
    forall m | m in VisibleMenu(role) && (m.id == "products" || m.id == "schema") ensures role == Admin {
      AllowedEntry(role, m);
    }
  }

  /** Every entry a role sees opens one of the five known tabs, and the product
      tab only for an administrator. */
  lemma MenuRoles(role: Role)
    ensures forall m :: m in VisibleMenu(role) ==>
              m.id in ["dashboard", "transaction-new", "history", "schema"] || (m.id == "products" && role == Admin)
  {
    forall m | m in VisibleMenu(role)
      ensures m.id in ["dashboard", "transaction-new", "history", "schema"] || (m.id == "products" && role == Admin)
    {
      EntryTab(role, m);
    }
  }

  lemma EntryTab(role: Role, m: MenuItem)
    requires m in MenuItems && role in m.roles
    ensures m.id in ["dashboard", "transaction-new", "history", "schema"] || (m.id == "products" && role == Admin)
  {
    MenuEntries(m);
    if m == MenuItems[1] {
      assert m.roles == [Admin];
    }
  }

  lemma AllowedEntry(role: Role, m: MenuItem)
    requires m in MenuItems && role in m.roles && (m.id == "products" || m.id == "schema")
    ensures role == Admin
  {
    MenuEntries(m);
  }
}
