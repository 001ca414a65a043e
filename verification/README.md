# Pharmacy point-of-sale: a verified model of the business rules

This project models the business rules of a small pharmacy cashier
application ("PharmaFlow"). In the application those rules live inside the
handlers of its screens. Here they are pure functions over immutable
records:

- **Checkout screen** (`TransactionFlow`). A cart of transaction lines is
  built by adding catalog products and removing lines. Adding a product again
  merges into its existing line, up to the product's stock. The screen shows
  the total, a 10% discount at or above 100000 rupiah, and the final price.
  Checkout refuses a cart of fewer than 3 lines and otherwise builds a
  transaction record.
- **Shell** (`App`). Completing a sale puts the transaction at the front of
  the log and lowers the stock of each product sold. The product screen is
  shown to administrators only.
- **Product screen** (`ProductManagement`). A save is refused when another
  product has the same name ignoring case, or when the stock is exactly 1.
  Otherwise the save updates the product by id, or creates one with id
  `max + 1`. Delete filters the catalog by id.
- **History** (`TransactionHistory`). Administrators see the whole log; a
  cashier (`kasir`) sees only their own transactions.
- **Dashboard** (`Dashboard`). Sales total, number of transactions, units
  sold, a per-name tally of units, its top five, and the low-stock table
  (`KRITIS` at 5 or fewer, `RENDAH` below 20).
- **Menu** (`Sidebar`). The menu table, filtered by the user's role.
- **Configuration** (`Constants`, `SeedData`). The seed catalog, the demo
  accounts and the discount settings, with the facts proved about them.

`Types` holds one datatype per record of `types.ts`. `Seqs` holds the
order-preserving `Filter` that every screen uses. `Catalog` holds lookups on
the product list.

Handlers that refuse an action return `Update(state, Some(alert))` with the
state unchanged. The checkout screen does this with `alert(...)` and an early
`return` (components/TransactionFlow.tsx:26-28, :60-62), or with `return prev`
inside the `setCart` updater (:35-36). The product screen uses
`setError(...); return`.

The central invariant is `App.PosInvariant`. It says:

- catalog ids are unique and positive;
- catalog names are distinct ignoring case;
- stocks are non-negative;
- the cart holds one line per product;
- the cart's line ids are distinct;
- every line's product is in the catalog;
- every line has at least one unit and a subtotal equal to quantity times unit price;
- no line asks for more than its product's stock.

Adding to the cart, removing from it and checkout preserve this invariant.
Save and delete preserve it while no cart exists; save also needs a
non-negative form stock.

The rule "stock is never 1" is deliberately NOT part of the invariant.
`App.SaleCanLeaveStockOne` shows a valid sale that leaves a stock of 1.

Points where the code's own comments or behaviour need a closer statement:

- The comment at components/TransactionFlow.tsx:59 and the note at :193 ask
  for 3 distinct products. The check at :60 counts cart lines. Under the cart
  invariant the two agree (`TransactionFlow.GateCountsDistinctProducts`).
- App.tsx:45-51 lowers each sold product's stock with no check and no
  rollback, and the model does the same. In this model checkout is one
  synchronous step, and the cart was built against the current catalog. Under
  those conditions no stock goes below zero (`App.CheckoutPreservesInvariant`).
  The running program does not have that guarantee; see the race under
  "Left out".
- The discount is `totalPrice * 0.10` in floating point. The model keeps the
  exact tenth as a `real`.
- Adding to the cart refuses any product whose stock is `<= 0`, not only 0.

## Model

| member | source | states |
|---|---|---|
| `TransactionFlow.TotalPrice` | components/TransactionFlow.tsx:19 | the left-to-right fold over the cart returns the sum of every line's subtotal |
| `TransactionFlow.Discount` | components/TransactionFlow.tsx:20 | at totals of 100000 or more (inclusive) the discount is exactly a tenth of the total (10·d = total); below that it is 0 |
| `TransactionFlow.ComputeTotals` | components/TransactionFlow.tsx:18-23 | the total is the sum of subtotals; at 100000 or more the discount is exactly a tenth of the total, below it is 0; final + discount = total; a non-negative total gives 0 ≤ final ≤ total |
| `TransactionFlow.TotalNonNegative` | components/TransactionFlow.tsx:39-49 | lines whose subtotal is quantity × a non-negative price have a non-negative total |
| `TransactionFlow.FindLine` | components/TransactionFlow.tsx:32 | the index of the first line for the product; none exactly when no line holds it |
| `TransactionFlow.AddToCart` | components/TransactionFlow.tsx:25-51 | the only refusals are out-of-stock, exactly when stock ≤ 0, and insufficient stock, exactly when the first line for the product is already at or above stock; a refusal leaves the cart unchanged. Every other add succeeds: a known product's lines gain one unit with subtotal re-derived from their unit price, keeping count, order and other lines; a new product appends one line of quantity 1 and subtotal = price |
| `TransactionFlow.AddPreservesInvariant` | components/TransactionFlow.tsx:25-51 | adding a catalog product under a fresh line id keeps one line per product, distinct line ids, consistent subtotals and quantity ≤ stock |
| `TransactionFlow.AppendPreservesInvariant` | components/TransactionFlow.tsx:43-50 | appending the first line of a product in stock keeps the cart invariant |
| `TransactionFlow.IncrementPreservesInvariant` | components/TransactionFlow.tsx:34-41 | incrementing a line whose quantity is below the product's stock keeps the cart invariant |
| `TransactionFlow.AddTwiceMerges` | components/TransactionFlow.tsx:32-50 | two additions of a product with stock ≥ 2 give one line of quantity 2 and subtotal 2 × price, never two lines |
| `TransactionFlow.RemoveFromCart` | components/TransactionFlow.tsx:54-56 | no line with the id survives; every other line is kept with its multiplicity, in order |
| `TransactionFlow.RemovePreservesInvariant` | components/TransactionFlow.tsx:54-56 | removing a line keeps the cart invariant |
| `TransactionFlow.RemoveDropsOneLine` | components/TransactionFlow.tsx:55 | with distinct line ids, removing an existing line id shortens the cart by exactly one |
| `TransactionFlow.LinesAreDistinctProducts` | components/TransactionFlow.tsx:59-60 | with one line per product, the number of lines equals the number of distinct product ids |
| `TransactionFlow.ProcessTransaction` | components/TransactionFlow.tsx:58-76 | no transaction exactly when the cart has fewer than 3 lines; otherwise the items are the cart, the id, time and user are the given ones, and total, discount and final price are the screen's totals: the discount is a tenth of the total at 100000 or more and 0 below, and final + discount = total |
| `TransactionFlow.GateCountsDistinctProducts` | components/TransactionFlow.tsx:59-63 | under the cart invariant, a transaction is produced exactly when the cart holds at least 3 distinct products |
| `ProductManagement.Lower` | components/ProductManagement.tsx:20 | lower-casing keeps the length, turns each ASCII capital into its small letter (code + 32), and changes no other character |
| `ProductManagement.MaxId` | components/ProductManagement.tsx:37 | the result is an id of the catalog and no id exceeds it |
| `ProductManagement.NextId` | components/ProductManagement.tsx:37 | the new id exceeds every existing id; it is 1 for an empty catalog, otherwise one more than an existing id |
| `ProductManagement.ReplaceById` | components/ProductManagement.tsx:34 | products with the id take the form's name, price, stock and category and keep their id; all others are unchanged; length and order are kept |
| `ProductManagement.Save` | components/ProductManagement.tsx:15-44 | a case-insensitive name clash with a product of another id alerts duplicate (checked first); otherwise stock 1 alerts; alerts leave the catalog unchanged; a save is accepted exactly when neither applies. With a truthy id it replaces only that id's product. Otherwise it appends one product with a fresh id `max + 1` |
| `ProductManagement.OwnNameIsNotDuplicate` | components/ProductManagement.tsx:20 | in a well-formed catalog, re-saving a product under its own name in any letter case is not a duplicate |
| `ProductManagement.SavePreservesWellFormed` | components/ProductManagement.tsx:19-39 | every save keeps ids unique and positive and names distinct ignoring case |
| `ProductManagement.UpdateKeepsWellFormed` | components/ProductManagement.tsx:32-34 | updating by id when no other product has the name keeps ids unique and positive and names distinct ignoring case |
| `ProductManagement.CreateKeepsWellFormed` | components/ProductManagement.tsx:35-38 | appending under the new id `max + 1` when no product has the name keeps ids unique and positive and names distinct ignoring case |
| `ProductManagement.Delete` | components/ProductManagement.tsx:46-50 | no product with the id survives; every other product is kept with its multiplicity, in order |
| `ProductManagement.DeleteRemovesOne` | components/ProductManagement.tsx:48 | with unique ids, deleting an existing id removes exactly that one product |
| `ProductManagement.DeletePreservesWellFormed` | components/ProductManagement.tsx:48 | deleting keeps ids unique and positive and names distinct ignoring case |
| `App.SettleStock` | App.tsx:45-51 | the catalog keeps its length, order, ids, names, prices and categories; each stock drops by the quantity of the first item for that product; products with no item are unchanged |
| `App.AddTransaction` | App.tsx:42-52 | the transaction heads the log with the old entries after it in order, and the catalog is settled against its items |
| `App.SettleLowersTotalStock` | App.tsx:45-51 | when items name distinct products of a catalog with unique ids, total stock drops by exactly the units sold |
| `App.SaleKeepsLowStockRows` | App.tsx:45-51 | after a sale with no negative quantities, every product that was under 20 units still has a row in the low-stock table |
| `App.Checkout` | components/TransactionFlow.tsx:58-84 | fewer than 3 lines alerts and changes nothing; otherwise the cart is emptied, the log grows by one transaction at the front, and the catalog is settled against the cart; that transaction carries the given id, time and user, the cart's items, and the cart's total, discount and final price |
| `App.CheckoutPreservesInvariant` | App.tsx:45-51 | committing a cart that satisfies the invariant leaves no stock negative and keeps the catalog well formed |
| `App.CheckoutStockAccounting` | App.tsx:45-51 | a committed cart lowers the catalog's total stock by exactly its units |
| `App.CheckoutUpdatesDashboard` | components/Dashboard.tsx:13-15 | after a commit, the sales total grows by the cart's final price, the units sold by the cart's units, and the transaction count by one |
| `App.CheckoutKeepsTransactionIdsUnique` | components/TransactionFlow.tsx:68 | a commit under a fresh id keeps transaction ids unique |
| `App.AddToCartPreservesInvariant` | components/TransactionFlow.tsx:121 | adding a product picked from the catalog under a fresh line id keeps the whole-state invariant |
| `App.SavePreservesInvariant` | components/ProductManagement.tsx:15-44 | a save with the form's non-negative stock keeps the whole-state invariant while no cart exists |
| `App.DeletePreservesInvariant` | components/ProductManagement.tsx:46-50 | a delete keeps the whole-state invariant while no cart exists |
| `App.InitialPosInvariant` | App.tsx:15-16 | the seed catalog with an empty log and an empty cart satisfies the whole-state invariant |
| `App.SaleCanLeaveStockOne` | App.tsx:48 | a valid sale can leave a product at stock 1, so "stock ≠ 1" is only a save-time rule |
| `App.Screen` | App.tsx:79-104 | the product screen is shown exactly for the products tab and an administrator; no screen exactly for unknown tabs |
| `App.MenuTabsHaveScreens` | components/Sidebar.tsx:33-36 | every tab the menu offers a role opens a screen for that role |
| `TransactionHistory.VisibleTransactions` | components/TransactionHistory.tsx:12-14 | an administrator sees the log unchanged; anyone else sees exactly the transactions with their user id, each as often as in the log, as a subsequence in newest-first order, never longer than the log |
| `TransactionHistory.VisibleIdempotent` | components/TransactionHistory.tsx:12-14 | filtering the filtered list again changes nothing |
| `Dashboard.TotalSales` | components/Dashboard.tsx:13 | with non-negative final prices the sales total is non-negative |
| `Dashboard.TotalSalesPrepend` | components/Dashboard.tsx:13 | putting a transaction at the front of the log adds exactly its final price to the sales total |
| `Dashboard.ItemsSold` | components/Dashboard.tsx:15 | with no negative quantity in any transaction, the units sold are non-negative |
| `Dashboard.ItemsSoldIsAllItems` | components/Dashboard.tsx:15 | the nested per-transaction sum of quantities equals the sum over all items together |
| `Dashboard.ItemsSoldPrepend` | components/Dashboard.tsx:15 | putting a transaction at the front of the log adds exactly its units to the units sold |
| `Dashboard.Bump` | components/Dashboard.tsx:21 | adding units under a name raises that name's count by them and leaves every other name's count alone |
| `Dashboard.BumpNames` | components/Dashboard.tsx:21 | after adding units the names present are the old ones plus the bumped one |
| `Dashboard.BumpDistinct` | components/Dashboard.tsx:18-23 | adding units never creates a second entry for a name |
| `Dashboard.Freq` | components/Dashboard.tsx:18-23 | the frequency table over the log has one entry per name sold, names exactly the items sold, and counts for each name the units sold under it |
| `Dashboard.Tally` | components/Dashboard.tsx:18-23 | the tally has one entry per name sold; each name's count is the units sold under it; the counts add up to the units of all items |
| `Dashboard.FreqCounts` | components/Dashboard.tsx:18-23 | every entry of the frequency table counts exactly the units sold under its name |
| `Dashboard.FreqSumsToItemsSold` | components/Dashboard.tsx:15-23 | the frequency table's counts sum to the dashboard's units sold |
| `Dashboard.Insert` | components/Dashboard.tsx:27 | inserting into a list sorted by non-increasing count keeps it sorted and adds exactly the one entry |
| `Dashboard.SortByCount` | components/Dashboard.tsx:27 | the result is sorted by non-increasing count and is a permutation of the input |
| `Dashboard.TopProducts` | components/Dashboard.tsx:25-28 | at most 5 entries (all of them when fewer), sorted by non-increasing count, taken from the tally without repeating any entry; every tally entry left out counts no more than any entry kept |
| `Dashboard.TopProductsDistinct` | components/Dashboard.tsx:25-28 | the top list names every product at most once, as the keys of `freq` are distinct |
| `Dashboard.TopProductsCounts` | components/Dashboard.tsx:25-28 | each top entry's count equals the units sold under its name |
| `Dashboard.LowStockRows` | components/Dashboard.tsx:155-168 | the rows list exactly the products with stock below 20, each as often as in the catalog, in catalog order; a row is KRITIS exactly when its stock is 5 or less, otherwise RENDAH |
| `Dashboard.ComputeStats` | components/Dashboard.tsx:12-28 | the transaction count is the log's length; the sales total is the sum of final prices (non-negative when they are); units sold equal both the sum over all items and the sum of the tally's counts; the top list has min(5, tally size) entries, sorted by count, taken from the tally without repeating any entry, no left-out entry counting more than a kept one, each counting the units sold under its name |
| `Sidebar.VisibleMenu` | components/Sidebar.tsx:33 | an entry is listed exactly when it is in the table and names the role |
| `Sidebar.MenuTable` | components/Sidebar.tsx:14-20 | the menu has five entries with distinct tab ids; every entry lists the administrator; the cashier is listed on exactly the dashboard, checkout and history entries |
| `Sidebar.AdminSeesAll` | components/Sidebar.tsx:15-19 | an administrator sees all five entries in table order |
| `Sidebar.KasirMenu` | components/Sidebar.tsx:15-19 | a cashier sees exactly dashboard, transaction-new and history, in that order |
| `Sidebar.AdminOnlyEntries` | components/Sidebar.tsx:16-19 | the products and schema entries are visible only to an administrator |
| `SeedData.InitialCatalogWellFormed` | constants.tsx:4-10 | seed ids 1–5 are distinct and positive and seed names are distinct ignoring case |
| `SeedData.InitialStocksAllowed` | constants.tsx:5-9 | every seed stock is positive and none is 1 |
| `SeedData.InitialProductsResave` | constants.tsx:5-9 | re-saving any seed product unchanged is accepted |
| `SeedData.DiscountSettings` | constants.tsx:17-18 | the threshold is 100000 and the rate is one tenth |
| `SeedData.MockUsersRoles` | constants.tsx:12-15 | exactly two accounts: an administrator with id 1 and a cashier with id 2, with different emails |

## Left out

- Rendering, CSS, receipts and currency formatting (`toLocaleString`) are presentation. Alerts become the `Alert` value of an `Update`, and the confirmation before a delete is left to the caller, so `Delete` is unconditional.
- Loading from and saving to `localStorage` (App.tsx:20-31) is browser I/O. The model starts from the seed catalog with an empty log.
- The one-second `setTimeout` before a sale completes (components/TransactionFlow.tsx:79-84), and the `isProcessing` flag, are not modelled: checkout is one synchronous step. The timer is never cancelled. A cashier who switches tab and comes back within that second gets a remounted checkout screen (App.tsx:87) with a fresh empty cart, built against the stock from before the sale. The old timer's `setCart([])` does not reach the new cart. Once the sale lowers the stock, the new cart can ask for more than is left, and its checkout drives a stock below zero. The model's non-negativity result (`App.CheckoutPreservesInvariant`) holds only for the synchronous model and does not cover this race.
- The random line ids, `Date.now()` transaction ids and `new Date()` timestamps are parameters (`lineId`, `txId`, `createdAt`). Only the lemmas that need freshness require it.
- The "clear cart" button (components/TransactionFlow.tsx:207) sets the cart to empty. It has no separate member, since the empty cart trivially satisfies the cart invariant.
- The dashboard's seven-day sales chart (components/Dashboard.tsx:30-49) depends on the system clock and date parsing, and is left out. So are the chart components.
- The login form, the receipt view and the static schema page hold no business rules. The Sidebar's fallback to the cashier role when no user is signed in is also left out, because screens exist only after login.
- Prices and stocks are integers. JavaScript numbers (fractions, `NaN`) are not modelled. The discount is kept as an exact `real`, with no floating-point rounding.
- `ProductManagement.Lower`: lower-cases ASCII letters only. JavaScript's `toLowerCase` also folds other Unicode letters.
- `ProductManagement.Save`: accepts any integer stock and price. The form's `required` and `min="0"` constraints are browser validation, so only `App.SavePreservesInvariant` assumes a non-negative stock.
- `Dashboard.Tally`: keeps every name in order of first appearance. JavaScript's `Object.entries` lists integer-like keys (such as `"123"`) first, which can change the order of equal counts in the top five.
- `Dashboard.Tally`: counts every name the same way. The source's `freq` is a plain object, so `freq[name] || 0` (components/Dashboard.tsx:21) reads inherited members. A product named `constructor`, `toString` or `valueOf` gets a string count (the function's text followed by the quantity). One named `__proto__` is silently dropped. The comparator at components/Dashboard.tsx:27 then yields `NaN` for such entries. Product names are free text, so these cases can occur.
- `Dashboard.TopProducts`: does not state that the sort is stable, so the order among equal counts is not fixed by the contract.
- `Dashboard.ComputeStats`: does not compute the seven-day chart data (see above).
- The menu's icon field is dropped. Its `label` field is called `title`, because `label` is a reserved word in Dafny.
