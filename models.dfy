/** The three persisted record types of the point-of-sale store, the two
    session roles and the calendar month that every report is keyed by.

    Money is held as an integer number of centavos: the store keeps prices,
    costs, bonuses and expense amounts as floating point numbers, and the
    model replaces that by exact integer arithmetic. */
module Models {

  datatype Option<+T> = None | Some(value: T)

  /** The range of SQLite's INTEGER column: a value outside it cannot be
      bound to a statement, and the write that needs it fails. */
  const MinInt64: int := -0x8000_0000_0000_0000
  const MaxInt64: int := 0x7fff_ffff_ffff_ffff

  predicate IsInt64(n: int) {
    MinInt64 <= n <= MaxInt64
  }

  /** The two roles a session can carry. */
  datatype Role = Manager | Cashier

  /** A calendar month as the clock reports it (the current UTC year and month). */
  datatype YearMonth = YearMonth(year: nat, month: nat)

  /** The range the clock can report: years 1 to 9999, months 1 to 12. */
  predicate IsCalendarMonth(ym: YearMonth) {
    1 <= ym.year <= 9999 && 1 <= ym.month <= 12
  }

  /** A row of the Item table; `id` is its integer primary key. */
  datatype Item = Item(
    id: int,
    name: string,
    stock: int,
    capitalPerUnit: int,
    sellingPrice: int,
    cashierBonus: int)

  /** A row of the Sale table. The price, cost and bonus are copies taken
      from the item when the sale was recorded; `stamped` is the month of
      its creation timestamp. */
  datatype Sale = Sale(
    itemId: int,
    quantity: int,
    sellingPrice: int,
    capitalPerUnit: int,
    cashierBonus: int,
    stamped: YearMonth)

  /** A row of the Expense table; `month` is a "YYYY-MM" key. */
  datatype Expense = Expense(name: string, amount: int, month: string)

  /** The pages a handler redirects to. */
  datatype Page = LoginPage | ManagerPage | CashierPage

  /** The flash messages shown after a redirect. */
  datatype Notice = InvalidCredentials | NotEnoughStock

  /** What a request handler answers. `NotFound` is the 404 of a lookup by
      id; `RequestFailed` is the error a missing or non-numeric form field
      raises, or the failed write of an integer SQLite cannot store; either
      way nothing is committed. The two views carry what the dashboards render. */
  datatype Response =
    | Redirect(to: Page, notice: Option<Notice>)
    | NotFound
    | RequestFailed
    | ManagerView(items: seq<Item>, expenses: seq<Expense>, revenue: int, totalExpenses: int, profit: int)
    | CashierView(items: seq<Item>, sales: seq<Sale>, totalBonus: int)
}
