/** The dashboard's figures: sales totals, units sold, the per-product tally
    and its top five, and the low-stock table. */
module Dashboard {
  import opened Types
  import opened Seqs
  import opened TransactionFlow

  // ---------------------------------------------------------------- totals

  /** The sum of the final prices, folded from the left. */
  function TotalSales(transactions: seq<Transaction>): (r: real)
    ensures (forall i :: 0 <= i < |transactions| ==> transactions[i].finalPrice >= 0.0) ==> r >= 0.0
  {
    if |transactions| == 0 then 0.0
    else TotalSales(transactions[..|transactions| - 1]) + transactions[|transactions| - 1].finalPrice
  }

  /** The units sold: per transaction the sum of its item quantities, summed over the log. */
  function ItemsSold(transactions: seq<Transaction>): (units: int)
    ensures (forall i :: 0 <= i < |transactions| ==> QuantitiesNonNegative(transactions[i].items)) ==> units >= 0
  {
    if |transactions| == 0 then 0
    else ItemsSold(transactions[..|transactions| - 1]) + SumQuantities(transactions[|transactions| - 1].items)
  }

  /** Every item of every transaction, in visiting order. */
  function AllItems(transactions: seq<Transaction>): (items: seq<TransactionDetail>) {
    if |transactions| == 0 then []
    else AllItems(transactions[..|transactions| - 1]) + transactions[|transactions| - 1].items
  }

  /** Units sold equals the quantities of all items taken together. */
  lemma {:induction false} ItemsSoldIsAllItems(transactions: seq<Transaction>)
    ensures ItemsSold(transactions) == SumQuantities(AllItems(transactions))
  {
    if |transactions| > 0 {
      var init := transactions[..|transactions| - 1];
      ItemsSoldIsAllItems(init);
      SumQuantitiesAppend(AllItems(init), transactions[|transactions| - 1].items);
    }
  }

  /** A transaction put at the front of the log adds its final price to the sales total. */
  lemma {:induction false} TotalSalesPrepend(tx: Transaction, transactions: seq<Transaction>)
    ensures TotalSales([tx] + transactions) == tx.finalPrice + TotalSales(transactions)
  {
    if |transactions| > 0 {
      var n := |transactions|;
      assert ([tx] + transactions)[..n] == [tx] + transactions[..n - 1];
      TotalSalesPrepend(tx, transactions[..n - 1]);
    } else {
      assert [tx] + transactions == [tx];
      assert [tx][..0] == [];
    }
  }

  /** A transaction put at the front of the log adds its units to the units sold. */
  lemma {:induction false} ItemsSoldPrepend(tx: Transaction, transactions: seq<Transaction>)
    ensures ItemsSold([tx] + transactions) == SumQuantities(tx.items) + ItemsSold(transactions)
  {
    if |transactions| > 0 {
      var n := |transactions|;
      assert ([tx] + transactions)[..n] == [tx] + transactions[..n - 1];
      ItemsSoldPrepend(tx, transactions[..n - 1]);
    } else {
      assert [tx] + transactions == [tx];
      assert [tx][..0] == [];
    }
  }

  // ------------------------------------------------------ product tally

  /** One entry of the tally: a product name and the units sold under it. */
  datatype ProductCount = ProductCount(name: string, count: int)

  /** The units sold under a name, over a list of items. */
  function NameQty(items: seq<TransactionDetail>, name: string): (units: int) {
    if |items| == 0 then 0
    else NameQty(items[..|items| - 1], name)
         + (if items[|items| - 1].productName == name then items[|items| - 1].quantity else 0)
  }

  /** Some item carries the name. */
  predicate Sold(items: seq<TransactionDetail>, name: string) {
    exists i :: 0 <= i < |items| && items[i].productName == name
  }

  /** The total of the entries under a name (a tally holds at most one). */
  function CountOf(entries: seq<ProductCount>, name: string): (count: int) {
    if |entries| == 0 then 0
    else (if entries[0].name == name then entries[0].count else 0) + CountOf(entries[1..], name)
  }

  function SumCounts(entries: seq<ProductCount>): (total: int) {
    if |entries| == 0 then 0 else entries[0].count + SumCounts(entries[1..])
  }

  predicate HasName(entries: seq<ProductCount>, name: string) {
    exists i :: 0 <= i < |entries| && entries[i].name == name
  }

  predicate DistinctEntryNames(entries: seq<ProductCount>) {
    forall i, j :: 0 <= i < j < |entries| ==> entries[i].name != entries[j].name
  }

  /** Adding units under a name: the existing entry grows in place, or a new
      entry goes at the end (the insertion order of an object's keys). */
  function Bump(entries: seq<ProductCount>, name: string, q: int): (r: seq<ProductCount>)
    ensures forall m :: CountOf(r, m) == CountOf(entries, m) + (if m == name then q else 0)
    ensures SumCounts(r) == SumCounts(entries) + q
  {
    if |entries| == 0 then [ProductCount(name, q)]
    else if entries[0].name == name then [entries[0].(count := entries[0].count + q)] + entries[1..]
    else
      var rest := Bump(entries[1..], name, q);
      assert ([entries[0]] + rest)[1..] == rest;
      [entries[0]] + rest
  }

  /** After a bump the names present are the old ones and the bumped one. */
  lemma {:induction false} BumpNames(entries: seq<ProductCount>, name: string, q: int)
    ensures forall m :: HasName(Bump(entries, name, q), m) <==> HasName(entries, m) || m == name
  {
    var r := Bump(entries, name, q);
    if |entries| > 0 && entries[0].name != name {
      var tail := entries[1..];
      var rest := Bump(tail, name, q);
      BumpNames(tail, name, q);
      assert r == [entries[0]] + rest;
      forall m ensures HasName(r, m) <==> HasName(entries, m) || m == name {
        if HasName(r, m) && m != entries[0].name {
          var i :| 0 <= i < |r| && r[i].name == m;
          assert rest[i-1].name == m;
        }
        if HasName(rest, m) {
          var i :| 0 <= i < |rest| && rest[i].name == m;
          assert r[i+1].name == m;
        }
        if HasName(tail, m) {
          var i :| 0 <= i < |tail| && tail[i].name == m;
          assert entries[i+1].name == m;
        }
        if HasName(entries, m) && m != entries[0].name {
          var i :| 0 <= i < |entries| && entries[i].name == m;
          assert tail[i-1].name == m;
        }
      }
    } else if |entries| > 0 {
      forall m ensures HasName(r, m) <==> HasName(entries, m) || m == name {
        if HasName(r, m) {
          var i :| 0 <= i < |r| && r[i].name == m;
          assert entries[i].name == m;
        }
        if HasName(entries, m) {
          var i :| 0 <= i < |entries| && entries[i].name == m;
          assert r[i].name == m;
        }
      }
    } else {
      assert r[0].name == name;
    }
  }

  /** A bump keeps the names distinct. */
  lemma {:induction false} BumpDistinct(entries: seq<ProductCount>, name: string, q: int)
    requires DistinctEntryNames(entries)
    ensures DistinctEntryNames(Bump(entries, name, q))
  {
    var r := Bump(entries, name, q);
    if |entries| > 0 && entries[0].name != name {
      var tail := entries[1..];
      var rest := Bump(tail, name, q);
      BumpDistinct(tail, name, q);
      BumpNames(tail, name, q);
      assert r == [entries[0]] + rest;
      forall j | 0 <= j < |rest| ensures rest[j].name != entries[0].name {
        assert HasName(rest, rest[j].name);
        if rest[j].name != name {
          var k :| 0 <= k < |tail| && tail[k].name == rest[j].name;
          assert entries[k+1].name == rest[j].name;
        }
      }
      forall i, j | 0 <= i < j < |r| ensures r[i].name != r[j].name {
        if i > 0 { assert r[i] == rest[i-1] && r[j] == rest[j-1]; }
        else { assert r[j] == rest[j-1]; }
      }
    } else if |entries| > 0 {
      forall i, j | 0 <= i < j < |r| ensures r[i].name != r[j].name {
        assert r[i].name == entries[i].name && r[j].name == entries[j].name;
      }
    }
  }

  /** The per-name tally of a list of items, in order of first appearance. */
  function Tally(items: seq<TransactionDetail>): (r: seq<ProductCount>)
    ensures DistinctEntryNames(r)
    ensures forall m :: CountOf(r, m) == NameQty(items, m)
    ensures forall m :: HasName(r, m) <==> Sold(items, m)
    ensures SumCounts(r) == SumQuantities(items)
  {
    if |items| == 0 then []
    else
      var init := items[..|items| - 1];
      var last := items[|items| - 1];
      var prev := Tally(init);
      BumpNames(prev, last.productName, last.quantity);
      BumpDistinct(prev, last.productName, last.quantity);
      forall m ensures Sold(items, m) <==> Sold(init, m) || m == last.productName {
        if Sold(init, m) {
          var i :| 0 <= i < |init| && init[i].productName == m;
          assert items[i].productName == m;
        }
      }
      Bump(prev, last.productName, last.quantity)
  }

  /** With distinct names, an entry's count is the tally's count for its name. */
  lemma {:induction false} EntryCount(entries: seq<ProductCount>, k: nat)
    requires DistinctEntryNames(entries) && k < |entries|
    ensures entries[k].count == CountOf(entries, entries[k].name)
  {
    var tail := entries[1..];
    assert forall i :: 0 <= i < |tail| ==> tail[i] == entries[i+1];
    if k == 0 {
      CountOfAbsent(tail, entries[0].name);
    } else {
      EntryCount(tail, k - 1);
    }
  }

  lemma {:induction false} CountOfAbsent(entries: seq<ProductCount>, name: string)
    requires forall i :: 0 <= i < |entries| ==> entries[i].name != name
    ensures CountOf(entries, name) == 0
  {
    if |entries| > 0 {
      CountOfAbsent(entries[1..], name);
    }
  }

  /** The dashboard's frequency table over the log. */
  function Freq(transactions: seq<Transaction>): (r: seq<ProductCount>)
    ensures DistinctEntryNames(r)
    ensures forall m :: HasName(r, m) <==> Sold(AllItems(transactions), m)
    ensures forall m :: CountOf(r, m) == NameQty(AllItems(transactions), m)
  {
    Tally(AllItems(transactions))
  }

  /** Each tally entry counts exactly the units sold under its name. */
  lemma FreqCounts(transactions: seq<Transaction>, k: nat)
    requires k < |Freq(transactions)|
    ensures Freq(transactions)[k].count == NameQty(AllItems(transactions), Freq(transactions)[k].name)
  {
    EntryCount(Freq(transactions), k);
  }

  /** The tally's counts add up to the units sold. */
  lemma FreqSumsToItemsSold(transactions: seq<Transaction>)
    ensures SumCounts(Freq(transactions)) == ItemsSold(transactions)
  {
    ItemsSoldIsAllItems(transactions);
  }

  // ---------------------------------------------------------- top products

  predicate SortedByCount(s: seq<ProductCount>) {
    forall i, j :: 0 <= i < j < |s| ==> s[i].count >= s[j].count
  }

  /** Places an entry ahead of the first entry with a count not above its own. */
  function Insert(x: ProductCount, s: seq<ProductCount>): (r: seq<ProductCount>)
    requires SortedByCount(s)
    ensures SortedByCount(r)
    ensures multiset(r) == multiset(s) + multiset{x}
    ensures forall y :: y in r ==> y == x || y in s
  {
    if |s| == 0 then [x]
    else if s[0].count <= x.count then [x] + s
    else
      var tail := s[1..];
      var rest := Insert(x, tail);
      assert s == [s[0]] + tail;
      assert forall y :: y in tail ==> y.count <= s[0].count;
      assert forall y :: y in rest ==> y.count <= s[0].count;
      var r := [s[0]] + rest;
      assert forall j :: 0 < j < |r| ==> r[j] in rest;
      r
  }

  /** Sorting by non-increasing count, stable for equal counts. */
  function SortByCount(s: seq<ProductCount>): (r: seq<ProductCount>)
    ensures SortedByCount(r)
    ensures multiset(r) == multiset(s)
  {
    if |s| == 0 then []
    else
      assert s == [s[0]] + s[1..];
      Insert(s[0], SortByCount(s[1..]))
  }

  /** The first five entries of a list, or all of them when there are fewer. */
  function Take5(s: seq<ProductCount>): (r: seq<ProductCount>)
    ensures |r| == if |s| < 5 then |s| else 5
    ensures forall i :: 0 <= i < |r| ==> r[i] == s[i]
  {
    s[..if |s| < 5 then |s| else 5]
  }

  /** A prefix of a sorted list holds every entry the cut left out at or above its counts. */
  lemma PrefixDominates(sorted: seq<ProductCount>, n: nat, e: ProductCount)
    requires SortedByCount(sorted) && n <= |sorted|
    requires e in sorted && e !in sorted[..n]
    ensures forall i :: 0 <= i < n ==> e.count <= sorted[i].count
  {
    var j :| 0 <= j < |sorted| && sorted[j] == e;
  }

  /** Cutting a sorted permutation of `f` at five keeps the best counts of `f`. */
  lemma TopOfSorted(f: seq<ProductCount>, sorted: seq<ProductCount>)
    requires SortedByCount(sorted) && multiset(sorted) == multiset(f)
    ensures |Take5(sorted)| == if |f| < 5 then |f| else 5
    ensures forall e :: e in Take5(sorted) ==> e in f
    ensures forall e :: e in f && e !in Take5(sorted) ==> forall i :: 0 <= i < |Take5(sorted)| ==> e.count <= Take5(sorted)[i].count
  {
    assert |sorted| == |f| by {
      assert |multiset(sorted)| == |multiset(f)|;
    }
    var r := Take5(sorted);
    assert forall e :: e in f <==> e in sorted by {
      forall e ensures e in f <==> e in sorted {
        assert e in f <==> e in multiset(f);
        assert e in sorted <==> e in multiset(sorted);
      }
    }
    forall e | e in f && e !in r ensures forall i :: 0 <= i < |r| ==> e.count <= r[i].count {
      PrefixDominates(sorted, |r|, e);
    }
  }

  /** The five best-selling names: the tally sorted by count, cut at five. */
  function TopProducts(transactions: seq<Transaction>): (r: seq<ProductCount>)
    ensures |r| == if |Freq(transactions)| < 5 then |Freq(transactions)| else 5
    ensures SortedByCount(r)
    ensures forall e :: e in r ==> e in Freq(transactions)
    ensures multiset(r) <= multiset(Freq(transactions))
    ensures forall e :: e in Freq(transactions) && e !in r ==> forall i :: 0 <= i < |r| ==> e.count <= r[i].count
  {
    var f := Freq(transactions);
    var sorted := SortByCount(f);
    TopOfSorted(f, sorted);
    var n := |Take5(sorted)|;
    assert Take5(sorted) == sorted[..n];
    assert sorted == sorted[..n] + sorted[n..];
    Take5(sorted)
  }

  /** With distinct names, no entry occurs twice. */
  lemma {:induction false} DistinctNamesOnce(entries: seq<ProductCount>, x: ProductCount)
    requires DistinctEntryNames(entries)
    ensures multiset(entries)[x] <= 1
  {
    if |entries| > 0 {
      var tail := entries[1..];
      assert entries == [entries[0]] + tail;
      assert forall i :: 0 <= i < |tail| ==> tail[i] == entries[i+1];
      DistinctNamesOnce(tail, x);
      if entries[0] == x {
        assert x !in tail;
      }
    }
  }

  /** An entry at two positions occurs at least twice. */
  lemma TwiceCounted(s: seq<ProductCount>, i: nat, j: nat)
    requires i < j < |s| && s[i] == s[j]
    ensures multiset(s)[s[i]] >= 2
  {
    assert s == s[..j] + s[j..];
    assert s[i] in s[..j];
    assert s[j..][0] == s[i];
  }

  /** The top list names every product at most once. */
  lemma TopProductsDistinct(transactions: seq<Transaction>)
    ensures DistinctEntryNames(TopProducts(transactions))
  {
    var r := TopProducts(transactions);
    var f := Freq(transactions);
    forall i, j | 0 <= i < j < |r| ensures r[i].name != r[j].name {
      if r[i] == r[j] {
        TwiceCounted(r, i, j);
        DistinctNamesOnce(f, r[i]);
      } else {
        assert r[i] in f && r[j] in f;
      }
    }
  }

  /** Every top entry's count is the units sold under its name. */
  lemma TopProductsCounts(transactions: seq<Transaction>)
    ensures forall e :: e in TopProducts(transactions) ==> e.count == NameQty(AllItems(transactions), e.name)
  {
    var f := Freq(transactions);
    forall e | e in TopProducts(transactions) ensures e.count == NameQty(AllItems(transactions), e.name) {
      var k :| 0 <= k < |f| && f[k] == e;
      FreqCounts(transactions, k);
    }
  }

  // --------------------------------------------------------- low stock

  datatype StockLevel = Kritis | Rendah

  datatype LowStockRow = LowStockRow(product: Product, level: StockLevel)

  function IsLowStock(p: Product): bool {
    p.stock < 20
  }

  /** The products the rows show, row by row. */
  function RowProducts(rows: seq<LowStockRow>): (r: seq<Product>) {
    seq(|rows|, i requires 0 <= i < |rows| => rows[i].product)
  }

  /** The low-stock table: the products under 20 units in catalog order, those
      at 5 or fewer marked critical and the rest low. */
  function LowStockRows(products: seq<Product>): (r: seq<LowStockRow>)
    ensures forall p :: (exists i :: 0 <= i < |r| && r[i].product == p) <==> p in products && p.stock < 20
    ensures forall i :: 0 <= i < |r| ==> (r[i].level == Kritis <==> r[i].product.stock <= 5)
    ensures forall p :: p in products && p.stock < 20 ==> multiset(RowProducts(r))[p] == multiset(products)[p]
    ensures IsSubsequence(RowProducts(r), products)
  {
    var low := Filter(products, IsLowStock);
    FilterSubsequence(products, IsLowStock);
    FilterCount(products, IsLowStock);
    var r := seq(|low|, i requires 0 <= i < |low| => LowStockRow(low[i], if low[i].stock <= 5 then Kritis else Rendah));
    assert RowProducts(r) == low;
    forall p ensures (exists i :: 0 <= i < |r| && r[i].product == p) <==> p in products && p.stock < 20 {
      if p in products && p.stock < 20 {
        assert IsLowStock(p) && p in low;
        var i :| 0 <= i < |low| && low[i] == p;
        assert r[i].product == p;
      }
    }
    r
  }

  /** Every catalog entry under 20 units has a row. */
  lemma LowStockListed(products: seq<Product>, i: nat)
    requires i < |products| && products[i].stock < 20
    ensures products[i] in RowProducts(LowStockRows(products))
  {
    var rows := LowStockRows(products);
    assert products[i] in products;
    var j :| 0 <= j < |rows| && rows[j].product == products[i];
    assert RowProducts(rows)[j] == products[i];
  }

  // --------------------------------------------------------------- stats

  datatype Stats = Stats(totalSales: real, totalTransactions: int, itemsSold: int, topProducts: seq<ProductCount>)

  /** The dashboard's summary figures over the log. */
  function ComputeStats(transactions: seq<Transaction>): (s: Stats)
    ensures s.totalTransactions == |transactions|
    ensures s.itemsSold == SumQuantities(AllItems(transactions)) == SumCounts(Freq(transactions))
    ensures s.totalSales == TotalSales(transactions)
    ensures (forall i :: 0 <= i < |transactions| ==> transactions[i].finalPrice >= 0.0) ==> s.totalSales >= 0.0
    ensures |s.topProducts| == if |Freq(transactions)| < 5 then |Freq(transactions)| else 5
    ensures SortedByCount(s.topProducts)
    ensures forall e :: e in s.topProducts ==> e in Freq(transactions)
    ensures multiset(s.topProducts) <= multiset(Freq(transactions))
    ensures forall e :: e in Freq(transactions) && e !in s.topProducts ==>
              forall i :: 0 <= i < |s.topProducts| ==> e.count <= s.topProducts[i].count
    ensures forall e :: e in s.topProducts ==> e.count == NameQty(AllItems(transactions), e.name)
  {
    FreqSumsToItemsSold(transactions);
    ItemsSoldIsAllItems(transactions);
    TopProductsCounts(transactions);
    Stats(TotalSales(transactions), |transactions|, ItemsSold(transactions), TopProducts(transactions))
  }
}
