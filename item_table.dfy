/** The Item table. Rows are kept in primary-key order; a new row gets one
    more than the largest id in the table (1 in an empty table), the rule
    SQLite applies to an INTEGER PRIMARY KEY column. */
module ItemTable {
  import opened Models

  /** Ids strictly increase along the table: they are unique and in key order. */
  predicate IdsIncreasing(items: seq<Item>) {
    forall i, j :: 0 <= i < j < |items| ==> items[i].id < items[j].id
  }

  predicate StockNonNegative(items: seq<Item>) {
    forall i :: 0 <= i < |items| ==> items[i].stock >= 0
  }

  /** Every stock is a value the INTEGER column can hold. */
  predicate StocksFit(items: seq<Item>) {
    forall i :: 0 <= i < |items| ==> IsInt64(items[i].stock)
  }

  /** The position of the row with primary key `id`. */
  function Find(items: seq<Item>, id: int): (r: Option<nat>)
    ensures r.Some? ==> r.value < |items| && items[r.value].id == id
    ensures r.None? ==> forall i :: 0 <= i < |items| ==> items[i].id != id
    decreases |items|
  {
    if items == [] then None
    else if items[0].id == id then Some(0)
    else match Find(items[1..], id)
      case None => None
      case Some(i) => Some(i + 1)
  }

  /** `Item.query.get(id)`: the row with that primary key, if any. */
  function Lookup(items: seq<Item>, id: int): (r: Option<Item>)
    ensures r.Some? ==> r.value.id == id && r.value in items
    ensures r.None? <==> forall i :: 0 <= i < |items| ==> items[i].id != id
  {
    match Find(items, id)
    case None => None
    case Some(i) => Some(items[i])
  }

  /** In a table with unique keys, every row is what a lookup of its key finds. */
  lemma LookupAt(items: seq<Item>, j: int)
    requires IdsIncreasing(items) && 0 <= j < |items|
    ensures Lookup(items, items[j].id) == Some(items[j])
  {
    var r := Lookup(items, items[j].id);
    var k :| 0 <= k < |items| && items[k] == r.value;
    assert k == j;
  }

  /** The id the next inserted row receives. */
  function NextId(items: seq<Item>): (r: int)
    requires IdsIncreasing(items)
    ensures forall i :: 0 <= i < |items| ==> items[i].id < r
  {
    if items == [] then 1 else items[|items| - 1].id + 1
  }

  /** Inserting a row with the next id keeps the keys unique and ordered; the
      new row is found under its id and every other lookup is unchanged. */
  lemma InsertedRowIsFresh(items: seq<Item>, row: Item)
    requires IdsIncreasing(items) && row.id == NextId(items)
    ensures Lookup(items, row.id) == None
    ensures IdsIncreasing(items + [row])
    ensures Lookup(items + [row], row.id) == Some(row)
    ensures forall k :: k != row.id ==> Lookup(items + [row], k) == Lookup(items, k)
  {
    var t := items + [row];
    assert IdsIncreasing(t);
    LookupAt(t, |items|);
    forall k | k != row.id
      ensures Lookup(t, k) == Lookup(items, k)
    {
      if j :| 0 <= j < |items| && items[j].id == k {
        LookupAt(items, j);
        assert t[j] == items[j];
        LookupAt(t, j);
      }
    }
  }

  /** The table after deleting the row with key `id` (if there is one). */
  function Without(items: seq<Item>, id: int): (r: seq<Item>)
    requires IdsIncreasing(items)
    ensures IdsIncreasing(r)
    ensures Lookup(items, id).None? ==> r == items
    ensures Lookup(items, id).Some? ==> |r| == |items| - 1
    ensures Lookup(r, id) == None
    ensures forall k :: k != id ==> Lookup(r, k) == Lookup(items, k)
  {
    match Find(items, id)
    case None => items
    case Some(i) =>
      var r := items[..i] + items[i + 1..];
      assert forall p :: 0 <= p < |r| ==> r[p] == items[if p < i then p else p + 1];
      assert IdsIncreasing(r);
      forall k | k != id
        ensures Lookup(r, k) == Lookup(items, k)
      {
        if j :| 0 <= j < |items| && items[j].id == k {
          LookupAt(items, j);
          LookupAt(r, if j < i then j else j - 1);
        }
      }
      r
  }

  /** The table after setting the stock of the row with key `id`. */
  function WithStock(items: seq<Item>, id: int, stock: int): (r: seq<Item>)
    requires IdsIncreasing(items)
    ensures |r| == |items| && IdsIncreasing(r)
    ensures Lookup(items, id).None? ==> r == items
    ensures Lookup(items, id).Some? ==> Lookup(r, id) == Some(Lookup(items, id).value.(stock := stock))
    ensures forall k :: k != id ==> Lookup(r, k) == Lookup(items, k)
    ensures StockNonNegative(items) && stock >= 0 ==> StockNonNegative(r)
    ensures StocksFit(items) && IsInt64(stock) ==> StocksFit(r)
  {
    match Find(items, id)
    case None => items
    case Some(i) =>
      var r := items[i := items[i].(stock := stock)];
      assert IdsIncreasing(r);
      LookupAt(items, i);
      LookupAt(r, i);
      forall k | k != id
        ensures Lookup(r, k) == Lookup(items, k)
      {
        if j :| 0 <= j < |items| && items[j].id == k {
          LookupAt(items, j);
          LookupAt(r, j);
        }
      }
      r
  }

  /** Deleting the row with the largest id frees that id: the next row
      inserted gets an id no larger than the deleted one, so some later
      insert can reuse it, and sales of the deleted item then refer to
      that new row. */
  lemma DeletedNewestIdReusable(items: seq<Item>)
    requires IdsIncreasing(items) && items != [] && items[0].id >= 1
    ensures NextId(Without(items, items[|items| - 1].id)) <= items[|items| - 1].id
  {
    var n := |items| - 1;
    LookupAt(items, n);
    var rest := Without(items, items[n].id);
    if rest != [] {
      var last := rest[|rest| - 1];
      LookupAt(rest, |rest| - 1);
      assert last.id != items[n].id;
      var k :| 0 <= k < |items| && items[k] == last;
      assert k < n;
    }
  }
}
