/** Start-up seeding of the recurring monthly expenses: for each default
    (name, amount), in order, an Expense row for the current month key is
    inserted unless a row with that name and key already exists. */
module Seeding {
  import opened Models

  predicate NamesDistinct(defaults: seq<(string, int)>) {
    forall i, j :: 0 <= i < j < |defaults| ==> defaults[i].0 != defaults[j].0
  }

  /** The default expenses, in the order they are seeded, amounts in
      centavos: five entries of a dictionary, so five distinct names, each
      with a positive amount. */
  function DefaultExpenses(): (r: seq<(string, int)>)
    ensures |r| == 5 && NamesDistinct(r)
    ensures forall j :: 0 <= j < |r| ==> r[j].1 > 0
  {
    [
      ("Electricity", 600000),
      ("Water", 100000),
      ("Rent", 2500000),
      ("BIR tax", 90000),
      ("Munisipyo", 100000)
    ]
  }

  predicate IsDefaultName(defaults: seq<(string, int)>, name: string) {
    exists j :: 0 <= j < |defaults| && defaults[j].0 == name
  }

  /** Some row of the table has this name and month key. */
  predicate HasExpense(table: seq<Expense>, name: string, key: string) {
    exists i :: 0 <= i < |table| && table[i].name == name && table[i].month == key
  }

  /** `Expense.query.filter_by(name=name, month=key).first()`: the first row
      with this name and key, or nothing when no row has them. */
  function FirstExpense(table: seq<Expense>, name: string, key: string): (r: Option<Expense>)
    ensures r.None? <==> !HasExpense(table, name, key)
    ensures r.Some? ==> r.value.name == name && r.value.month == key
    ensures r.Some? ==>
      exists i :: (0 <= i < |table| && table[i] == r.value
        && forall j :: 0 <= j < i ==> !(table[j].name == name && table[j].month == key))
    decreases |table|
  {
    if table == [] then None
    else if table[0].name == name && table[0].month == key then Some(table[0])
    else
      var r := FirstExpense(table[1..], name, key);
      assert HasExpense(table, name, key) ==> HasExpense(table[1..], name, key) by {
        if HasExpense(table, name, key) {
          var i :| 0 <= i < |table| && table[i].name == name && table[i].month == key;
          assert table[1..][i - 1] == table[i];
        }
      }
      assert r.Some? ==>
        exists i :: (0 <= i < |table| && table[i] == r.value
          && forall j :: 0 <= j < i ==> !(table[j].name == name && table[j].month == key)) by {
        if r.Some? {
          var i :| 0 <= i < |table[1..]| && table[1..][i] == r.value
            && forall j :: 0 <= j < i ==> !(table[1..][j].name == name && table[1..][j].month == key);
          assert table[i + 1] == r.value;
          forall j | 0 <= j < i + 1
            ensures !(table[j].name == name && table[j].month == key)
          {
            if j > 0 {
              assert table[j] == table[1..][j - 1];
            }
          }
        }
      }
      r
  }

  /** The number of rows with this name and month key. */
  function CountOf(table: seq<Expense>, name: string, key: string): (n: nat)
    ensures n == 0 <==> !HasExpense(table, name, key)
    ensures n <= |table|
    decreases |table|
  {
    if table == [] then 0
    else
      var last := table[|table| - 1];
      assert forall i :: 0 <= i < |table| - 1 ==> table[..|table| - 1][i] == table[i];
      CountOf(table[..|table| - 1], name, key) + if last.name == name && last.month == key then 1 else 0
  }

  lemma CountOfAppend(table: seq<Expense>, e: Expense, name: string, key: string)
    ensures CountOf(table + [e], name, key)
         == CountOf(table, name, key) + if e.name == name && e.month == key then 1 else 0
  {
    assert (table + [e])[..|table|] == table;
  }

  /** One step of the seeding loop: afterwards the name has a row for the
      key, and one row, for that name and key, is appended exactly when it
      had none. */
  function SeedOne(table: seq<Expense>, name: string, amount: int, key: string): (r: seq<Expense>)
    ensures |table| <= |r| && r[..|table|] == table
    ensures HasExpense(r, name, key)
    ensures |r| == |table| + 1 <==> !HasExpense(table, name, key)
    ensures |r| > |table| ==> r[|table|] == Expense(name, amount, key)
  {
    match FirstExpense(table, name, key)
    case Some(_) => table
    case None =>
      var e := Expense(name, amount, key);
      var r := table + [e];
      assert r[|table|] == e;
      assert r[..|table|] == table;
      r
  }

  /** The expense table after the seeding loop over `defaults`. */
  function Seeded(table: seq<Expense>, defaults: seq<(string, int)>, key: string): (r: seq<Expense>)
    ensures |table| <= |r| <= |table| + |defaults|
    ensures r[..|table|] == table
    ensures forall i :: |table| <= i < |r| ==> r[i].month == key && (r[i].name, r[i].amount) in defaults
    ensures forall j :: 0 <= j < |defaults| ==> HasExpense(r, defaults[j].0, key)
    decreases |defaults|
  {
    if defaults == [] then table
    else
      var next := SeedOne(table, defaults[0].0, defaults[0].1, key);
      var r := Seeded(next, defaults[1..], key);
      assert r[..|table|] == next[..|table|];
      assert forall j :: 1 <= j < |defaults| ==> defaults[1..][j - 1] == defaults[j];
      assert HasExpense(next, defaults[0].0, key) by {
        if !HasExpense(table, defaults[0].0, key) {
          assert next[|table|] == Expense(defaults[0].0, defaults[0].1, key);
        }
      }
      var w :| 0 <= w < |next| && next[w].name == defaults[0].0 && next[w].month == key;
      assert r[w] == r[..|next|][w] == next[w];
      r
  }

  /** The first step of the loop, then the rest of it. */
  lemma SeededStep(table: seq<Expense>, defaults: seq<(string, int)>, key: string)
    requires defaults != []
    ensures Seeded(table, defaults, key) == Seeded(SeedOne(table, defaults[0].0, defaults[0].1, key), defaults[1..], key)
  {
  }

  /** Seeding leaves one row per default name for the key: it inserts a row
      exactly for the default names that had none, and adds nothing for any
      other name. */
  lemma {:induction false} SeededCount(table: seq<Expense>, defaults: seq<(string, int)>, key: string, name: string)
    requires NamesDistinct(defaults)
    ensures CountOf(Seeded(table, defaults, key), name, key)
         == if IsDefaultName(defaults, name) && CountOf(table, name, key) == 0 then 1
            else CountOf(table, name, key)
    decreases |defaults|
  {
    if defaults != [] {
      var next := SeedOne(table, defaults[0].0, defaults[0].1, key);
      if !HasExpense(table, defaults[0].0, key) {
        CountOfAppend(table, Expense(defaults[0].0, defaults[0].1, key), name, key);
      }
      assert NamesDistinct(defaults[1..]);
      SeededCount(next, defaults[1..], key, name);
      if IsDefaultName(defaults[1..], name) {
        var j :| 0 <= j < |defaults[1..]| && defaults[1..][j].0 == name;
        assert defaults[j + 1].0 == name;
        assert name != defaults[0].0;
      }
      if IsDefaultName(defaults, name) && name != defaults[0].0 {
        var j :| 0 <= j < |defaults| && defaults[j].0 == name;
        assert defaults[1..][j - 1].0 == name;
      }
    }
  }

  /** Seeding a table that already has a row for every default name and the
      key inserts nothing. */
  lemma {:induction false} SeededNothingMissing(table: seq<Expense>, defaults: seq<(string, int)>, key: string)
    requires forall j :: 0 <= j < |defaults| ==> HasExpense(table, defaults[j].0, key)
    ensures Seeded(table, defaults, key) == table
    decreases |defaults|
  {
    if defaults != [] {
      assert HasExpense(table, defaults[0].0, key);
      assert forall j :: 0 <= j < |defaults[1..]| ==> defaults[1..][j] == defaults[j + 1];
      SeededNothingMissing(table, defaults[1..], key);
    }
  }

  /** Running the seeding twice in the same month adds no rows the second time. */
  lemma SeedingIdempotent(table: seq<Expense>, defaults: seq<(string, int)>, key: string)
    ensures Seeded(Seeded(table, defaults, key), defaults, key) == Seeded(table, defaults, key)
  {
    SeededNothingMissing(Seeded(table, defaults, key), defaults, key);
  }

  /** Seeding never gives a (name, key) pair a second row: a pair with at
      most one row before has at most one after. */
  lemma {:induction false} SeededAtMostOne(table: seq<Expense>, defaults: seq<(string, int)>, key: string, name: string, k: string)
    requires CountOf(table, name, k) <= 1
    ensures CountOf(Seeded(table, defaults, key), name, k) <= 1
    decreases |defaults|
  {
    if defaults != [] {
      var e := Expense(defaults[0].0, defaults[0].1, key);
      var next := SeedOne(table, e.name, e.amount, key);
      if next != table {
        assert next == table + [e];
        CountOfAppend(table, e, name, k);
      }
      SeededAtMostOne(next, defaults[1..], key, name, k);
    }
  }

  /** After seeding, each of the five default names has exactly one expense
      for the key, provided none had two before. */
  lemma SeedingLeavesOneEach(table: seq<Expense>, key: string)
    requires forall j :: 0 <= j < |DefaultExpenses()| ==> CountOf(table, DefaultExpenses()[j].0, key) <= 1
    ensures forall j :: 0 <= j < |DefaultExpenses()| ==>
      CountOf(Seeded(table, DefaultExpenses(), key), DefaultExpenses()[j].0, key) == 1
  {
    var defaults := DefaultExpenses();
    forall j | 0 <= j < |defaults|
      ensures CountOf(Seeded(table, defaults, key), defaults[j].0, key) == 1
    {
      assert IsDefaultName(defaults, defaults[j].0);
      SeededCount(table, defaults, key, defaults[j].0);
    }
  }
}
