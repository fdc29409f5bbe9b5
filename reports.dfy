/** The monthly figures of the two dashboards: revenue and profit for the
    manager, the bonus total for the cashier. */
module Reports {
  import opened Models
  import opened Sums
  import opened MonthKeys

  function SaleRevenue(s: Sale): int {
    s.sellingPrice * s.quantity
  }

  function SaleBonus(s: Sale): int {
    s.cashierBonus * s.quantity
  }

  function ExpenseAmount(e: Expense): int {
    e.amount
  }

  /** The query condition: the timestamp's year and month are those of `now`. */
  function StampedIn(now: YearMonth): Sale -> bool {
    (s: Sale) => s.stamped.year == now.year && s.stamped.month == now.month
  }

  function TaggedWith(key: string): Expense -> bool {
    (e: Expense) => e.month == key
  }

  /** The sales whose timestamp has the year and the month of `now`: each
      such row with its multiplicity, and no other row. */
  function SalesIn(sales: seq<Sale>, now: YearMonth): (r: seq<Sale>)
    ensures forall s :: multiset(r)[s] == if s.stamped == now then multiset(sales)[s] else 0
    ensures forall s :: s in r ==> s in sales && s.stamped == now
  {
    var r := Filter(sales, StampedIn(now));
    assert forall s :: StampedIn(now)(s) <==> s.stamped == now;
    r
  }

  /** The expenses tagged with month key `key`: each such row with its
      multiplicity, and no other row. */
  function ExpensesFor(expenses: seq<Expense>, key: string): (r: seq<Expense>)
    ensures forall e :: multiset(r)[e] == if e.month == key then multiset(expenses)[e] else 0
    ensures forall e :: e in r ==> e in expenses && e.month == key
  {
    Filter(expenses, TaggedWith(key))
  }

  lemma ProductNonNegative(a: int, b: int)
    requires a >= 0 && b >= 0
    ensures a * b >= 0
  {
  }

  lemma RevenueTermsNonNegative(sales: seq<Sale>, now: YearMonth)
    requires forall s :: s in sales ==> s.sellingPrice >= 0 && s.quantity >= 0
    ensures forall s :: s in SalesIn(sales, now) ==> SaleRevenue(s) >= 0
  {
    forall s | s in SalesIn(sales, now)
      ensures SaleRevenue(s) >= 0
    {
      ProductNonNegative(s.sellingPrice, s.quantity);
    }
  }

  lemma BonusTermsNonNegative(sales: seq<Sale>, now: YearMonth)
    requires forall s :: s in sales ==> s.cashierBonus >= 0 && s.quantity >= 0
    ensures forall s :: s in SalesIn(sales, now) ==> SaleBonus(s) >= 0
  {
    forall s | s in SalesIn(sales, now)
      ensures SaleBonus(s) >= 0
    {
      ProductNonNegative(s.cashierBonus, s.quantity);
    }
  }

  /** Revenue of the month: the sum of price times quantity over its sales.
      It is never negative while no sale has a negative price or quantity,
      and it is zero when no sale is stamped with the month. */
  function MonthRevenue(sales: seq<Sale>, now: YearMonth): (r: int)
    ensures (forall s :: s in sales ==> s.sellingPrice >= 0 && s.quantity >= 0) ==> r >= 0
    ensures (forall s :: s in sales ==> s.stamped != now) ==> r == 0
  {
    var r := SumBy(SalesIn(sales, now), SaleRevenue);
    if forall s :: s in sales ==> s.sellingPrice >= 0 && s.quantity >= 0 then
      RevenueTermsNonNegative(sales, now); r
    else r
  }

  /** Bonus owed for the month: the sum of bonus times quantity over its
      sales. It is never negative while no sale has a negative bonus or
      quantity, and it is zero when no sale is stamped with the month. */
  function MonthBonus(sales: seq<Sale>, now: YearMonth): (r: int)
    ensures (forall s :: s in sales ==> s.cashierBonus >= 0 && s.quantity >= 0) ==> r >= 0
    ensures (forall s :: s in sales ==> s.stamped != now) ==> r == 0
  {
    var r := SumBy(SalesIn(sales, now), SaleBonus);
    if forall s :: s in sales ==> s.cashierBonus >= 0 && s.quantity >= 0 then
      BonusTermsNonNegative(sales, now); r
    else r
  }

  /** Expense total of the month: the amounts of the expenses under its key.
      It is never negative while no amount is, and it is zero when no row
      carries the month's key. */
  function MonthExpenses(expenses: seq<Expense>, now: YearMonth): (r: int)
    ensures (forall e :: e in expenses ==> e.amount >= 0) ==> r >= 0
    ensures (forall e :: e in expenses ==> e.month != MonthKey(now)) ==> r == 0
  {
    SumBy(ExpensesFor(expenses, MonthKey(now)), ExpenseAmount)
  }

  /** The sales table splits into any two parts, and the month's totals
      are the sums of the parts' totals. */
  lemma MonthTotalsSplit(a: seq<Sale>, b: seq<Sale>, now: YearMonth)
    ensures MonthRevenue(a + b, now) == MonthRevenue(a, now) + MonthRevenue(b, now)
    ensures MonthBonus(a + b, now) == MonthBonus(a, now) + MonthBonus(b, now)
  {
    var p := StampedIn(now);
    FilterAppend(a, b, p);
    SumByAppend(Filter(a, p), Filter(b, p), SaleRevenue);
    SumByAppend(Filter(a, p), Filter(b, p), SaleBonus);
  }

  /** Recording one sale raises the month's revenue by price times quantity
      and its bonus total by bonus times quantity when the sale is stamped
      with that month, and leaves both unchanged otherwise. */
  lemma RecordedSaleTotals(sales: seq<Sale>, s: Sale, now: YearMonth)
    ensures MonthRevenue(sales + [s], now)
         == MonthRevenue(sales, now) + if s.stamped == now then s.sellingPrice * s.quantity else 0
    ensures MonthBonus(sales + [s], now)
         == MonthBonus(sales, now) + if s.stamped == now then s.cashierBonus * s.quantity else 0
  {
    MonthTotalsSplit(sales, [s], now);
    FilterFirst([s], StampedIn(now));
    assert [s][1..] == [];
    assert StampedIn(now)(s) <==> s.stamped == now;
    if s.stamped == now {
      assert SalesIn([s], now) == [s];
      assert MonthRevenue([s], now) == SaleRevenue(s) + SumBy([s][1..], SaleRevenue);
      assert MonthBonus([s], now) == SaleBonus(s) + SumBy([s][1..], SaleBonus);
    } else {
      assert SalesIn([s], now) == [];
    }
  }

  /** Sales stamped with other months add nothing to this month's totals. */
  lemma {:induction false} OtherMonthsContributeNothing(sales: seq<Sale>, now: YearMonth)
    requires forall i :: 0 <= i < |sales| ==> sales[i].stamped != now
    ensures MonthRevenue(sales, now) == 0 && MonthBonus(sales, now) == 0
    decreases |sales|
  {
    if sales != [] {
      var n := |sales| - 1;
      assert sales == sales[..n] + [sales[n]];
      OtherMonthsContributeNothing(sales[..n], now);
      RecordedSaleTotals(sales[..n], sales[n], now);
    }
  }

  /** The totals do not depend on the order the query returns rows in. */
  lemma MonthTotalsIgnoreOrder(a: seq<Sale>, b: seq<Sale>, ea: seq<Expense>, eb: seq<Expense>, now: YearMonth)
    requires multiset(a) == multiset(b) && multiset(ea) == multiset(eb)
    ensures MonthRevenue(a, now) == MonthRevenue(b, now)
    ensures MonthBonus(a, now) == MonthBonus(b, now)
    ensures MonthExpenses(ea, now) == MonthExpenses(eb, now)
  {
    SalesInPermutation(a, b, now);
    SumByPermutation(SalesIn(a, now), SalesIn(b, now), SaleRevenue);
    SumByPermutation(SalesIn(a, now), SalesIn(b, now), SaleBonus);
    var key := MonthKey(now);
    ExpensesForPermutation(ea, eb, key);
    SumByPermutation(ExpensesFor(ea, key), ExpensesFor(eb, key), ExpenseAmount);
  }

  lemma SalesInPermutation(a: seq<Sale>, b: seq<Sale>, now: YearMonth)
    requires multiset(a) == multiset(b)
    ensures multiset(SalesIn(a, now)) == multiset(SalesIn(b, now))
  {
    forall s ensures multiset(SalesIn(a, now))[s] == multiset(SalesIn(b, now))[s] {
    }
  }

  lemma ExpensesForPermutation(a: seq<Expense>, b: seq<Expense>, key: string)
    requires multiset(a) == multiset(b)
    ensures multiset(ExpensesFor(a, key)) == multiset(ExpensesFor(b, key))
  {
    forall e ensures multiset(ExpensesFor(a, key))[e] == multiset(ExpensesFor(b, key))[e] {
    }
  }

  /** An expense row tagged with the key of another calendar month does not
      enter this month's expense total; one tagged with this month's key
      adds its amount. */
  lemma AddedExpenseTotal(expenses: seq<Expense>, e: Expense, other: YearMonth, now: YearMonth)
    requires IsCalendarMonth(other) && IsCalendarMonth(now)
    requires e.month == MonthKey(other)
    ensures MonthExpenses(expenses + [e], now)
         == MonthExpenses(expenses, now) + if other == now then e.amount else 0
  {
    var key := MonthKey(now);
    var p := TaggedWith(key);
    FilterAppend(expenses, [e], p);
    FilterFirst([e], p);
    assert [e][1..] == [];
    SumByAppend(Filter(expenses, p), Filter([e], p), ExpenseAmount);
    if other != now && e.month == key {
      MonthKeyInjective(other, now);
    }
  }
}
