/** The "YYYY-MM" month key: the year in decimal, a dash, then the month
    as two digits with a leading zero for months 1 to 9. The same key is
    written by the expense seeding and looked up by the manager dashboard. */
module MonthKeys {
  import opened Models

  predicate IsDigit(c: char) {
    '0' <= c <= '9'
  }

  predicate AllDigits(s: string) {
    forall i :: 0 <= i < |s| ==> IsDigit(s[i])
  }

  function DigitChar(d: nat): (c: char)
    requires d < 10
    ensures IsDigit(c)
  {
    ('0' as int + d) as char
  }

  function DigitValue(c: char): (d: nat)
    requires IsDigit(c)
    ensures d < 10 && DigitChar(d) == c
  {
    c as int - '0' as int
  }

  /** The decimal numeral of `n`, without leading zeros (Python's `str(n)`). */
  function Decimal(n: nat): (s: string)
    ensures |s| >= 1 && AllDigits(s)
    ensures s[0] == '0' ==> n == 0
    decreases n
  {
    if n < 10 then [DigitChar(n)] else Decimal(n / 10) + [DigitChar(n % 10)]
  }

  /** The value of a string of decimal digits. */
  function ParseDecimal(s: string): nat
    requires AllDigits(s)
    decreases |s|
  {
    if s == [] then 0
    else ParseDecimal(s[..|s| - 1]) * 10 + DigitValue(s[|s| - 1])
  }

  /** Reading a numeral back gives the number it was written from. */
  lemma {:induction false} DecimalRoundTrip(n: nat)
    ensures ParseDecimal(Decimal(n)) == n
    decreases n
  {
    if n >= 10 {
      var s := Decimal(n);
      assert s[..|s| - 1] == Decimal(n / 10);
      DecimalRoundTrip(n / 10);
    }
  }

  /** `n` formatted with `:02d`: zero-padded to at least two digits. */
  function TwoDigits(n: nat): (s: string)
    ensures AllDigits(s)
    ensures n < 100 ==> |s| == 2 && ParseDecimal(s) == n
    ensures n < 100 ==> (s[0] == '0' <==> n < 10)
  {
    DecimalRoundTrip(n);
    if n < 10 then "0" + Decimal(n) else Decimal(n)
  }

  /** `f"{year}-{month:02d}"`: for any month below 100, a key is digits, a
      dash and exactly two digits, and a year below 10 has no leading zero. */
  function MonthKey(ym: YearMonth): (k: string)
    ensures ym.month < 100 ==>
      && |k| >= 4 && k[|k| - 3] == '-'
      && AllDigits(k[..|k| - 3]) && AllDigits(k[|k| - 2..])
      && (k[0] == '0' ==> ym.year == 0)
  {
    var k := Decimal(ym.year) + "-" + TwoDigits(ym.month);
    assert ym.month < 100 ==> k[..|k| - 3] == Decimal(ym.year) && k[|k| - 2..] == TwoDigits(ym.month) by {
      if ym.month < 100 {
        assert |k| == |Decimal(ym.year)| + 3;
      }
    }
    k
  }

  /** Reads a key of the form digits, dash, two digits. */
  function ParseMonthKey(k: string): Option<YearMonth> {
    if |k| < 4 || k[|k| - 3] != '-' then None
    else
      var y, m := k[..|k| - 3], k[|k| - 2..];
      if AllDigits(y) && AllDigits(m) then Some(YearMonth(ParseDecimal(y), ParseDecimal(m)))
      else None
  }

  /** The key of every month the clock can report reads back as that month. */
  lemma MonthKeyRoundTrip(ym: YearMonth)
    requires ym.month < 100
    ensures ParseMonthKey(MonthKey(ym)) == Some(ym)
  {
    var k := MonthKey(ym);
    var d := Decimal(ym.year);
    assert |k| == |d| + 3;
    assert k[|k| - 3] == '-';
    assert k[..|k| - 3] == d;
    assert k[|k| - 2..] == TwoDigits(ym.month);
    DecimalRoundTrip(ym.year);
  }

  /** Two different months never share a key, so a lookup by key finds
      exactly the rows written for that month. */
  lemma MonthKeyInjective(a: YearMonth, b: YearMonth)
    requires a.month < 100 && b.month < 100
    requires MonthKey(a) == MonthKey(b)
    ensures a == b
  {
    MonthKeyRoundTrip(a);
    MonthKeyRoundTrip(b);
  }
}
