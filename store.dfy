/** The request handlers of the store over its three tables. Every handler
    receives the role its session carries and does nothing but redirect to
    the login page unless that role is exactly the one it requires. The
    current calendar month is passed in where the handlers read the clock. */
module App {
  import opened Models
  import opened MonthKeys
  import opened ItemTable
  import opened Reports
  import opened Seeding
  import opened Auth

  /** The fields of the add-item form, once read as numbers. */
  datatype ItemForm = ItemForm(name: string, stock: int, capital: int, selling: int, bonus: int)

  /** The fields of the sell form, once read as integers. */
  datatype SaleForm = SaleForm(itemId: int, quantity: int)

  class Store {
    var items: seq<Item>
    var sales: seq<Sale>
    var expenses: seq<Expense>

    /** The Item table's primary keys are unique and in order, and no name
        has two expense rows for the same month key. */
    ghost predicate Valid()
      reads this
    {
      && IdsIncreasing(items)
      && forall name, key :: CountOf(expenses, name, key) <= 1
    }

    /** A freshly created database: the three tables exist and are empty. */
    constructor ()
      ensures Valid()
      ensures items == [] && sales == [] && expenses == []
    {
      items, sales, expenses := [], [], [];
    }

    /** Start-up seeding: the current month's key, then the seeding loop.
        Afterwards each default name has exactly one row for the month. */
    method SeedDefaultExpenses(now: YearMonth)
      requires Valid()
      modifies this
      ensures Valid()
      ensures expenses == Seeded(old(expenses), DefaultExpenses(), MonthKey(now))
      ensures forall j :: 0 <= j < |DefaultExpenses()| ==>
        CountOf(expenses, DefaultExpenses()[j].0, MonthKey(now)) == 1
      ensures items == old(items) && sales == old(sales)
    {
      var currentMonth := MonthKey(now);
      SeedingLeavesOneEach(expenses, currentMonth);
      SeedExpenses(DefaultExpenses(), currentMonth);
    }

    /** The seeding loop: for each (name, amount) of `defaults` in turn,
        insert a row for `key` unless one with that name and key exists. */
    method SeedExpenses(defaults: seq<(string, int)>, key: string)
      requires Valid()
      modifies this
      ensures Valid()
      ensures expenses == Seeded(old(expenses), defaults, key)
      ensures items == old(items) && sales == old(sales)
    {
      // rows added in the database session, written by the final commit
      var pending := expenses;
      var i := 0;
      while i < |defaults|
        invariant 0 <= i <= |defaults|
        invariant Seeded(pending, defaults[i..], key) == Seeded(expenses, defaults, key)
        modifies {}
      {
        var name, amount := defaults[i].0, defaults[i].1;
        SeededStep(pending, defaults[i..], key);
        assert defaults[i..][1..] == defaults[i + 1..];
        var existing := FirstExpense(pending, name, key);
        if existing.None? {
          pending := pending + [Expense(name, amount, key)];
        }
        i := i + 1;
      }
      assert defaults[i..] == [];
      forall name, k
        ensures CountOf(pending, name, k) <= 1
      {
        SeededAtMostOne(expenses, defaults, key, name, k);
      }
      expenses := pending;
    }

    /** The manager dashboard: every item, this month's expenses and their
        total, the revenue of this month's sales and the profit left after
        the expenses. */
    function ManagerPanel(role: Option<Role>, now: YearMonth): (r: Response)
      reads this
      ensures role != Some(Manager) <==> r == Redirect(LoginPage, None)
      ensures role == Some(Manager) ==>
        && r.ManagerView?
        && r.items == items
        && r.expenses == ExpensesFor(expenses, MonthKey(now))
        && r.totalExpenses == MonthExpenses(expenses, now)
        && r.revenue == MonthRevenue(sales, now)
        && r.profit == r.revenue - r.totalExpenses
    {
      if role != Some(Manager) then Redirect(LoginPage, None)
      else
        var month := MonthKey(now);
        var monthExpenses := ExpensesFor(expenses, month);
        var totalExpenses := Sums.SumBy(monthExpenses, ExpenseAmount);
        var revenue := Sums.SumBy(SalesIn(sales, now), SaleRevenue);
        ManagerView(items, monthExpenses, revenue, totalExpenses, revenue - totalExpenses)
    }

    /** Adding an item inserts exactly one row, under the next id, holding the
        submitted values; the stock is stored as given, even if negative. A
        stock the INTEGER column cannot hold makes the commit fail. */
    method AddItem(role: Option<Role>, form: Option<ItemForm>) returns (r: Response)
      requires Valid()
      modifies this
      ensures Valid()
      ensures sales == old(sales) && expenses == old(expenses)
      ensures role != Some(Manager) ==> r == Redirect(LoginPage, None) && items == old(items)
      ensures role == Some(Manager) && form.None? ==> r == RequestFailed && items == old(items)
      ensures role == Some(Manager) && form.Some? && !IsInt64(form.value.stock) ==>
        r == RequestFailed && items == old(items)
      ensures role == Some(Manager) && form.Some? && IsInt64(form.value.stock) ==>
        var f := form.value;
        var row := Item(NextId(old(items)), f.name, f.stock, f.capital, f.selling, f.bonus);
        && r == Redirect(ManagerPage, None)
        && items == old(items) + [row]
        && Lookup(old(items), row.id) == None
        && Lookup(items, row.id) == Some(row)
        && (forall k :: k != row.id ==> Lookup(items, k) == Lookup(old(items), k))
      ensures StocksFit(old(items)) ==> StocksFit(items)
    {
      if role != Some(Manager) {
        return Redirect(LoginPage, None);
      }
      if form.None? {
        return RequestFailed;
      }
      var f := form.value;
      if !IsInt64(f.stock) {
        return RequestFailed;
      }
      var row := Item(NextId(items), f.name, f.stock, f.capital, f.selling, f.bonus);
      InsertedRowIsFresh(items, row);
      items := items + [row];
      r := Redirect(ManagerPage, None);
    }

    /** Deleting an item removes only the row with that id; sales that refer
        to it stay as they are. An unknown id is a not-found answer; an id
        the INTEGER column cannot hold makes the lookup itself fail. */
    method DeleteItem(role: Option<Role>, itemId: int) returns (r: Response)
      requires Valid()
      modifies this
      ensures Valid()
      ensures sales == old(sales) && expenses == old(expenses)
      ensures role != Some(Manager) ==> r == Redirect(LoginPage, None) && items == old(items)
      ensures role == Some(Manager) && !IsInt64(itemId) ==> r == RequestFailed && items == old(items)
      ensures role == Some(Manager) && IsInt64(itemId) && Lookup(old(items), itemId).None? ==>
        r == NotFound && items == old(items)
      ensures role == Some(Manager) && IsInt64(itemId) && Lookup(old(items), itemId).Some? ==>
        && r == Redirect(ManagerPage, None)
        && items == Without(old(items), itemId)
        && |items| == |old(items)| - 1
        && Lookup(items, itemId) == None
        && (forall k :: k != itemId ==> Lookup(items, k) == Lookup(old(items), k))
    {
      if role != Some(Manager) {
        return Redirect(LoginPage, None);
      }
      if !IsInt64(itemId) {
        return RequestFailed;
      }
      var item := Lookup(items, itemId);
      if item.None? {
        return NotFound;
      }
      items := Without(items, itemId);
      r := Redirect(ManagerPage, None);
    }

    /** The cashier panel: every item, this month's sales and the bonus
        they earn. */
    function CashierPanel(role: Option<Role>, now: YearMonth): (r: Response)
      reads this
      ensures role != Some(Cashier) <==> r == Redirect(LoginPage, None)
      ensures role == Some(Cashier) ==>
        && r.CashierView?
        && r.items == items
        && r.sales == SalesIn(sales, now)
        && r.totalBonus == MonthBonus(sales, now)
    {
      if role != Some(Cashier) then Redirect(LoginPage, None)
      else
        var monthSales := SalesIn(sales, now);
        CashierView(items, monthSales, Sums.SumBy(monthSales, SaleBonus))
    }

    /** Recording a sale. An unknown item is a not-found answer; a quantity
        above the stock is refused with a notice. Otherwise one Sale is
        appended that copies the item's price, cost and bonus and is stamped
        with the current month, and the item's stock drops by the quantity;
        nothing else changes. The quantity is not checked for sign, so an
        id, a quantity or a new stock outside the INTEGER column's range
        makes the lookup or the commit fail, with nothing written. */
    method Sell(role: Option<Role>, form: Option<SaleForm>, now: YearMonth) returns (r: Response)
      requires Valid()
      modifies this
      ensures Valid()
      ensures expenses == old(expenses)
      ensures role != Some(Cashier) ==>
        r == Redirect(LoginPage, None) && items == old(items) && sales == old(sales)
      ensures role == Some(Cashier) && form.None? ==>
        r == RequestFailed && items == old(items) && sales == old(sales)
      ensures role == Some(Cashier) && form.Some? && !IsInt64(form.value.itemId) ==>
        r == RequestFailed && items == old(items) && sales == old(sales)
      ensures role == Some(Cashier) && form.Some? && IsInt64(form.value.itemId) ==>
        var id, qty := form.value.itemId, form.value.quantity;
        match Lookup(old(items), id)
        case None =>
          r == NotFound && items == old(items) && sales == old(sales)
        case Some(it) =>
          if it.stock < qty then
            r == Redirect(CashierPage, Some(NotEnoughStock)) && items == old(items) && sales == old(sales)
          else if !IsInt64(qty) || !IsInt64(it.stock - qty) then
            r == RequestFailed && items == old(items) && sales == old(sales)
          else
            && r == Redirect(CashierPage, None)
            && sales == old(sales) + [Sale(id, qty, it.sellingPrice, it.capitalPerUnit, it.cashierBonus, now)]
            && items == WithStock(old(items), id, it.stock - qty)
            && Lookup(items, id) == Some(it.(stock := it.stock - qty))
            && (forall k :: k != id ==> Lookup(items, k) == Lookup(old(items), k))
      ensures StockNonNegative(old(items)) ==> StockNonNegative(items)
      ensures StocksFit(old(items)) ==> StocksFit(items)
    {
      if role != Some(Cashier) {
        return Redirect(LoginPage, None);
      }
      if form.None? {
        return RequestFailed;
      }
      var id, qty := form.value.itemId, form.value.quantity;
      if !IsInt64(id) {
        return RequestFailed;
      }
      var found := Lookup(items, id);
      if found.None? {
        return NotFound;
      }
      var item := found.value;
      if item.stock < qty {
        return Redirect(CashierPage, Some(NotEnoughStock));
      }
      if !IsInt64(qty) || !IsInt64(item.stock - qty) {
        return RequestFailed;
      }
      var sale := Sale(item.id, qty, item.sellingPrice, item.capitalPerUnit, item.cashierBonus, now);
      items := WithStock(items, id, item.stock - qty);
      sales := sales + [sale];
      r := Redirect(CashierPage, None);
    }
  }

  /** A whole session against a fresh store: the manager adds an item with
      stock 10, cost 5.00, price 8.00 and bonus 1.00; the cashier logs in
      and sells 3 of it, then the manager logs back in. The stock becomes 7,
      the recorded sale copies the item's figures, and this month's bonus
      total and revenue, read through each role's own dashboard, become
      3.00 and 24.00. */
  method SellThreeOfTen(now: YearMonth) returns (stock: int, sale: Sale, revenue: int, bonus: int)
    ensures stock == 7
    ensures sale == Sale(1, 3, 800, 500, 100, now)
    ensures revenue == 2400 && bonus == 300
  {
    var store := new Store();
    var session := new Session();
    var _ := session.Login("manager", "MarlaSchr");
    var _ := store.AddItem(session.role, Some(ItemForm("Soda", 10, 500, 800, 100)));
    var soda := Item(1, "Soda", 10, 500, 800, 100);
    assert store.items == [soda];
    assert Lookup(store.items, 1) == Some(soda);
    var _ := session.Login("cashier", "Glitz");
    var _ := store.Sell(session.role, Some(SaleForm(1, 3)), now);
    assert IsInt64(3) && IsInt64(7);
    assert Lookup(store.items, 1) == Some(soda.(stock := 7));
    stock := Lookup(store.items, 1).value.stock;
    sale := store.sales[0];
    RecordedSaleTotals([], sale, now);
    var cashierView := store.CashierPanel(session.role, now);
    var _ := session.Login("manager", "MarlaSchr");
    var managerView := store.ManagerPanel(session.role, now);
    revenue, bonus := managerView.revenue, cashierView.totalBonus;
  }

  /** A fresh session whose login attempt fails carries no role, and both
      dashboards send it back to the login page. */
  method FailedLoginLocksOut(username: string, password: string, now: YearMonth)
    returns (login: Response, manager: Response, cashier: Response)
    requires Authenticate(username, password).None?
    ensures login == Redirect(LoginPage, Some(InvalidCredentials))
    ensures manager == Redirect(LoginPage, None) && cashier == Redirect(LoginPage, None)
  {
    var store := new Store();
    var session := new Session();
    login := session.Login(username, password);
    manager := store.ManagerPanel(session.role, now);
    cashier := store.CashierPanel(session.role, now);
  }
}
