# Glitz Bar point-of-sale store, modelled in Dafny

The store keeps three tables: Items (name, stock, cost per unit, selling
price, per-unit cashier bonus), Sales (each a copy of an item's price, cost
and bonus at the moment of sale, with the quantity and the month it was
recorded in) and Expenses (name, amount, "YYYY-MM" month key). A session
carries one of two roles. The manager adds and deletes items and reads a
dashboard with the month's revenue, expenses and profit. The cashier records
sales, each decrementing an item's stock, and reads a panel with the month's
bonus total. At start-up the five recurring expenses are seeded for the
current month, once per (name, month).

The model lifts these business rules out of the web framework and the
database into an in-memory store:

- `models.dfy` (`Models`): the records, roles, calendar months and the
  responses handlers give (a redirect with an optional flash notice,
  not-found, a failed request, or a dashboard view).
- `month_key.dfy` (`MonthKeys`): the `f"{year}-{month:02d}"` key and its
  inverse. Distinct months have distinct keys.
- `sums.dfy` (`Sums`): order-preserving filtering, which stands for a
  query, and `sum(f(x) for x in xs)`, with the lemmas that sums split over
  concatenation and ignore row order.
- `reports.dfy` (`Reports`): a month's revenue, bonus and expense totals,
  and how one recorded sale or seeded expense changes them.
- `item_table.dfy` (`ItemTable`): the Item table in primary-key order.
  Lookup by id, the next id, deleting a row, setting a row's stock.
- `seeding.dfy` (`Seeding`): the default expenses and the seeding loop as a
  function. The loop inserts one row per missing default name and is
  idempotent.
- `auth.dfy` (`Auth`): the credential table, and the session with login and
  logout.
- `store.dfy` (`App`): the `Store` class holding the three tables, with one
  method or function per request handler. Two client methods state whole
  scenarios against it and prove their outcomes.

Money is an integer number of centavos. The floating point columns are replaced by
exact arithmetic, and the default expense amounts (6000, 1000, 25000, 900
and 1000) become 600000, 100000, 2500000, 90000 and 100000 centavos. The
current time is a `YearMonth` parameter. A Sale keeps only the year and month
of its timestamp, because that is all the reports compare. Each handler
receives the role its session carries (`Option<Role>`) and the form fields
already read as numbers (`Option<ItemForm>`, `Option<SaleForm>`). `None`
stands for a field that is missing or not a number.

Item ids follow SQLite's rule for an integer primary key: one more than the
largest id in the table. So when the newest item is deleted, the next insert
gets an id no larger than the deleted one (`ItemTable.DeletedNewestIdReusable`),
and a later insert can reuse it. Sales are never deleted with their item, so
sales of the deleted item then refer to that new row.

Integer columns hold 64-bit values. A handler that would bind a larger
integer fails without committing anything, as the database driver refuses the
value: the item id looked up by a sale or a deletion, and the stock and
quantity a sale or a new item writes.

The store keeps two invariants across every handler: item ids are unique
and in order, and no (name, month key) pair has two expense rows.

## Model

| member | source | states |
|---|---|---|
| `MonthKeys.Decimal` | app.py:51 | the year is written as decimal digits with no leading zero |
| `MonthKeys.DecimalRoundTrip` | app.py:51 | reading the digits of a number back gives the number |
| `MonthKeys.TwoDigits` | app.py:51 | `:02d` gives exactly two digits for a month, with a leading zero exactly for months 1-9, and reads back as the month |
| `MonthKeys.MonthKey` | app.py:51 | for any month below 100 the key is digits, a dash and exactly two digits, with no leading zero on the year unless it is 0 |
| `MonthKeys.MonthKeyRoundTrip` | app.py:51 | the month key (year, dash, two-digit month) parses back to the year and month it was made from |
| `MonthKeys.MonthKeyInjective` | app.py:114-116 | two different months never share a key, so the dashboard's key lookup finds only rows seeded for its own month |
| `Sums.Filter` | app.py:116-122 | a query keeps every row meeting its condition, with its multiplicity, and no other row |
| `Sums.SumBy` | app.py:117 | `sum(...)` of terms that are all non-negative is non-negative, and of all-zero terms is zero |
| `Sums.FilterAppend` | app.py:119-122 | querying a concatenated table gives the concatenated query results |
| `Sums.SumByAppend` | app.py:124 | a sum over concatenated rows is the sum of the two sums |
| `Sums.SumByPermutation` | app.py:117 | a sum does not depend on the order in which the query returns rows |
| `Reports.SalesIn` | app.py:119-122 | the sales query returns exactly the rows whose timestamp has the current year and month, each with its multiplicity |
| `Reports.ExpensesFor` | app.py:116 | the expense query returns exactly the rows tagged with the month key, each with its multiplicity |
| `Reports.MonthRevenue` | app.py:119-124 | the month's revenue is non-negative when no sale has a negative price or quantity, and zero when no sale is from the month |
| `Reports.MonthBonus` | app.py:188-193 | the month's bonus total is non-negative when no sale has a negative bonus or quantity, and zero when no sale is from the month |
| `Reports.MonthExpenses` | app.py:116-117 | the month's expense total is non-negative when no amount is negative, and zero when no row carries the month's key |
| `Reports.MonthTotalsSplit` | app.py:119-124 | the month's revenue and bonus over a split sales table are the sums over the parts |
| `Reports.RecordedSaleTotals` | app.py:119-124 | one more sale raises the month's revenue by price times quantity and its bonus by bonus times quantity if it is stamped with that year and month, and changes neither otherwise |
| `Reports.OtherMonthsContributeNothing` | app.py:188-193 | sales from other months add nothing to the month's revenue or bonus total |
| `Reports.MonthTotalsIgnoreOrder` | app.py:116-124 | revenue, bonus and expense totals are the same for any order of the rows |
| `Reports.AddedExpenseTotal` | app.py:113-117 | an expense keyed to another calendar month does not enter this month's expense total; one keyed to this month adds its amount |
| `ItemTable.Find` | app.py:208 | finds the position of the row with the given id, or reports that no row has it |
| `ItemTable.Lookup` | app.py:208 | `get` returns a row of the table with the given id, and returns nothing exactly when no row has that id |
| `ItemTable.LookupAt` | app.py:19 | with unique primary keys, looking up a row's id finds that row |
| `ItemTable.NextId` | app.py:19 | a new row's id is larger than every id in the table |
| `ItemTable.InsertedRowIsFresh` | app.py:148-157 | an inserted row's id was unused, the new row is found under it, and every other lookup is unchanged |
| `ItemTable.Without` | app.py:167-169 | deleting removes exactly the row with that id, keeps every other row, and does nothing when the id is absent |
| `ItemTable.WithStock` | app.py:222 | only the stock of the row with that id changes; every other row and field is kept; non-negative stock stays non-negative when the new stock is |
| `ItemTable.DeletedNewestIdReusable` | app.py:167-169 | after deleting the newest item, the next id handed out is at most that item's id |
| `Seeding.DefaultExpenses` | app.py:53-59 | five defaults with distinct names, each with a positive amount |
| `Seeding.FirstExpense` | app.py:62 | `.first()` returns the earliest row with that name and key, and nothing exactly when no row has them |
| `Seeding.SeedOne` | app.py:62-64 | one loop step keeps the table as a prefix, leaves the name with a row for the key, and appends that row exactly when the name had none |
| `Seeding.CountOf` | app.py:62 | the count of rows with a name and month key is zero exactly when the existence query finds none |
| `Seeding.Seeded` | app.py:61-64 | seeding keeps the existing rows as a prefix, adds only rows for the key with a default name and amount, and afterwards every default name has a row for the key |
| `Seeding.SeededCount` | app.py:61-66 | a default name with no row for the key gets exactly one; every other count is unchanged |
| `Seeding.SeededNothingMissing` | app.py:62-63 | when every default name already has a row for the key, seeding inserts nothing |
| `Seeding.SeededAtMostOne` | app.py:61-66 | seeding never gives a (name, key) pair a second row |
| `Seeding.SeedingIdempotent` | app.py:53-66 | seeding twice in the same month adds no rows the second time |
| `Seeding.SeedingLeavesOneEach` | app.py:53-66 | after seeding, each of the five defaults has exactly one row for the key, provided none had more than one before |
| `Auth.Credentials` | app.py:83-89 | exactly two accounts, "manager" and "cashier", the first holding the manager role and the second the cashier role |
| `Auth.Landing` | app.py:84-89 | a successful login lands on its role's own panel, never on the login page, and on a different panel for each role |
| `Auth.Authenticate` | app.py:83-92 | ("manager","MarlaSchr") grants the manager role, ("cashier","Glitz") the cashier role, and no other pair grants either |
| `Auth.Session.Login` | app.py:77-92 | a matching pair sets the role and redirects to that role's panel; any other pair flashes "invalid credentials" and leaves the session, including an earlier role, unchanged |
| `Auth.Session.Logout` | app.py:97-100 | logout clears the role and redirects to login |
| `App.Store.constructor` | app.py:47-48 | a new database has three empty tables |
| `App.Store.SeedDefaultExpenses` | app.py:47-66 | start-up seeding leaves the expense table equal to `Seeded` of the old one for the current month's key, with exactly one row per default name for that key, and leaves items and sales alone |
| `App.Store.SeedExpenses` | app.py:61-66 | the loop inserts, in order, each default that has no row for the key, and commits the rows at the end |
| `App.Store.ManagerPanel` | app.py:106-134 | without the manager role: a redirect to login; otherwise all items, the month's expenses, their total, the month's revenue and profit = revenue - expenses |
| `App.Store.AddItem` | app.py:137-159 | a no-op without the manager role; a failed request with no change on bad fields or a stock outside 64 bits; otherwise exactly one new row with the submitted values under a fresh id, and sales and expenses untouched |
| `App.Store.DeleteItem` | app.py:162-171 | a no-op without the manager role; a failed request for an id outside 64 bits; not-found with no change for an unknown id; otherwise only that row is removed and all sales stay |
| `App.Store.CashierPanel` | app.py:177-197 | without the cashier role: a redirect to login; otherwise all items, the month's sales and their bonus total |
| `App.Store.Sell` | app.py:200-227 | a no-op without the cashier role; not-found for an unknown item, "not enough stock" when stock < quantity, and a failed request when an id, quantity or new stock falls outside 64 bits, all with no change; otherwise one Sale copying the item's price, cost and bonus, the stock decreased by the quantity, and nothing else changed; non-negative stock stays non-negative |
| `App.SellThreeOfTen` | app.py:83-227 | selling 3 of an item with stock 10, cost 5.00, price 8.00 and bonus 1.00 leaves stock 7 and records that sale; the cashier panel then shows a bonus total of 3.00 and, after the manager logs back in, the dashboard shows revenue 24.00 |
| `App.FailedLoginLocksOut` | app.py:83-109 | after a failed login a fresh session has no role, and both dashboards redirect it to login |

## Left out

- Flask routing, `render_template`, redirects and `flash` are not modelled as HTTP. Each handler returns a `Response` value naming the page it redirects to and the notice it flashes. The `/` route, which only redirects to login, and the GET side of `/login`, which only renders the form, are not modelled.
- SQLAlchemy, SQLite and `db.session`: the tables are sequences in the store object. Every handler's changes take effect together, as the commit at the end of each handler does. The seeding loop collects its rows and writes them at the end, as the single commit after the loop does.
- Sale and Expense primary keys are not modelled. Rows of those tables are identified by their position.
- Floating point: money is exact integer centavos. Rounding of float sums and products is not captured.
- The wall clock: the current year and month are parameters. A sale records only the year and month of its timestamp.
- Text-to-number parsing of the form fields by `int()` and `float()`: a form arrives already read, or as `None` when a field is missing or malformed. `None` gives a failed request with no change. Python's numeric grammar is not modelled.
- The path converter of `/manager/delete_item/<int:item_id>` accepts only non-negative integers; the model accepts any integer id that fits in 64 bits.
- ItemTable.NextId: once the largest id is 2^63-1, SQLite picks an unused id at random; the model keeps counting past the 64-bit range.
- Prices, costs, bonuses and expense amounts are exact integers here, so the range limits of the float columns are not modelled.
- Concurrency: two sales of the same item racing on the stock check and decrement are outside this single-threaded model.
- The session's signing (`secret_key`) is not modelled. So are keys other than `role`, which logout clears along with everything else.
