/**
  Database tables of ordered rows (banners, product galleries, product
  categories): each row has an id, the id of the parent it is ordered within
  (a banner's supplier, a gallery's product) and an integer `order`.
 */
module OrderedRows {
  import opened Options

  /** A row; F holds the columns the ordering logic never touches. */
  datatype Row<F> = Row(id: int, parent: int, order: int, fields: F)

  /** One validated entry of a reorder request: set row `id` to `order`. */
  datatype OrderEntry = OrderEntry(id: int, order: int)

  function IdsOf<F>(rows: seq<Row<F>>): set<int>
  {
    set i | 0 <= i < |rows| :: rows[i].id
  }

  /** A row an UPDATE restricted to parent `scope` (or not restricted, for None) may reach. */
  predicate InScope<F>(r: Row<F>, scope: Option<int>)
  {
    scope.None? || r.parent == scope.value
  }

  /**
    One `UPDATE ... SET order = order WHERE id = id [AND parent = scope]`:
    every row the WHERE clause matches gets the new order (and, in the
    database, a fresh `updated_at`, which the model does not carry).
   */
  function SetOrder<F>(rows: seq<Row<F>>, id: int, order: int, scope: Option<int>): (r: seq<Row<F>>)
    ensures |r| == |rows|
    ensures forall k | 0 <= k < |rows| ::
      r[k] == if rows[k].id == id && InScope(rows[k], scope) then rows[k].(order := order) else rows[k]
  {
    seq(|rows|, k requires 0 <= k < |rows| =>
      if rows[k].id == id && InScope(rows[k], scope) then rows[k].(order := order) else rows[k])
  }

  /** The table after one UPDATE per entry, in the entries' order. */
  function ApplyEntries<F>(rows: seq<Row<F>>, entries: seq<OrderEntry>, scope: Option<int>): (r: seq<Row<F>>)
    ensures |r| == |rows|
  {
    if entries == [] then rows
    else
      var last := entries[|entries| - 1];
      SetOrder(ApplyEntries(rows, entries[..|entries| - 1], scope), last.id, last.order, scope)
  }

  /** The order of the last entry for `id`, None when no entry names it. */
  function LastOrder(entries: seq<OrderEntry>, id: int): (r: Option<int>)
    ensures r.None? <==> forall i | 0 <= i < |entries| :: entries[i].id != id
    ensures r.Some? ==> exists i | 0 <= i < |entries| ::
      entries[i] == OrderEntry(id, r.value) && forall j | i < j < |entries| :: entries[j].id != id
  {
    if entries == [] then None
    else if entries[|entries| - 1].id == id then Some(entries[|entries| - 1].order)
    else
      var r := LastOrder(entries[..|entries| - 1], id);
      assert forall i | 0 <= i < |entries| - 1 :: entries[..|entries| - 1][i] == entries[i];
      r
  }

  /**
    What a sequence of UPDATEs does to each row: a row in scope that some entry
    names ends with the order of the last such entry; every other row, and
    every modelled column other than `order`, keeps its value (the
    `updated_at` timestamp Eloquent also sets is not modelled).
   */
  lemma {:induction false} ApplyEntriesAt<F>(rows: seq<Row<F>>, entries: seq<OrderEntry>, scope: Option<int>, k: int)
    requires 0 <= k < |rows|
    ensures ApplyEntries(rows, entries, scope)[k] ==
      if InScope(rows[k], scope) && LastOrder(entries, rows[k].id).Some?
      then rows[k].(order := LastOrder(entries, rows[k].id).value)
      else rows[k]
  {
    if entries != [] {
      var prefix := entries[..|entries| - 1];
      ApplyEntriesAt(rows, prefix, scope, k);
      if entries[|entries| - 1].id != rows[k].id {
        assert LastOrder(entries, rows[k].id) == LastOrder(prefix, rows[k].id);
      }
    }
  }

  /** A table of rows that UPDATE statements change in place. */
  class Table<F> {
    var rows: seq<Row<F>>

    constructor(rows0: seq<Row<F>>)
      ensures rows == rows0
    {
      rows := rows0;
    }

    /** `UPDATE ... SET order = order WHERE id = id [AND parent = scope]` */
    method UpdateOrder(id: int, order: int, scope: Option<int>)
      modifies this
      ensures rows == SetOrder(old(rows), id, order, scope)
    {
      rows := SetOrder(rows, id, order, scope);
    }

    /** One UPDATE per entry, in order. */
    method UpdateOrders(entries: seq<OrderEntry>, scope: Option<int>)
      modifies this
      ensures rows == ApplyEntries(old(rows), entries, scope)
    {
      for i := 0 to |entries|
        invariant rows == ApplyEntries(old(rows), entries[..i], scope)
      {
        assert entries[..i + 1][..i] == entries[..i];
        UpdateOrder(entries[i].id, entries[i].order, scope);
      }
      assert entries[..|entries|] == entries;
    }
  }

  // ---------------------------------------------------------------------------
  // Ordering by (parent, order)

  /** `a` may come before `b` in a listing ordered by parent, then order. */
  predicate Precedes<F>(a: Row<F>, b: Row<F>)
  {
    a.parent < b.parent || (a.parent == b.parent && a.order <= b.order)
  }

  predicate SortedByParentThenOrder<F>(s: seq<Row<F>>)
  {
    forall i, j | 0 <= i < j < |s| :: Precedes(s[i], s[j])
  }

  /** `x` inserted before the first row it precedes. */
  function Insert<F>(x: Row<F>, s: seq<Row<F>>): (r: seq<Row<F>>)
    ensures multiset(r) == multiset(s) + multiset{x}
  {
    if s == [] || Precedes(x, s[0]) then [x] + s
    else
      assert s == [s[0]] + s[1..];
      [s[0]] + Insert(x, s[1..])
  }

  lemma {:induction false} InsertKeepsSorted<F>(x: Row<F>, s: seq<Row<F>>)
    requires SortedByParentThenOrder(s)
    ensures SortedByParentThenOrder(Insert(x, s))
  {
    if s == [] || Precedes(x, s[0]) {
    } else {
      var rest := Insert(x, s[1..]);
      InsertKeepsSorted(x, s[1..]);
      assert s == [s[0]] + s[1..];
      forall j | 0 <= j < |rest|
        ensures Precedes(s[0], rest[j])
      {
        assert rest[j] in multiset(rest);
        if rest[j] != x {
          assert rest[j] in multiset(s[1..]);
          var m :| 0 <= m < |s[1..]| && s[1..][m] == rest[j];
          assert s[m + 1] == rest[j];
        }
      }
      var r := [s[0]] + rest;
      assert Insert(x, s) == r;
      forall i, j | 0 <= i < j < |r|
        ensures Precedes(r[i], r[j])
      {
        if i > 0 {
          assert r[i] == rest[i - 1] && r[j] == rest[j - 1];
        } else {
          assert r[j] == rest[j - 1];
        }
      }
    }
  }

  /** The rows ordered by parent, then by order (`orderBy(parent)->orderBy(order)`). */
  function SortByParentThenOrder<F>(s: seq<Row<F>>): (r: seq<Row<F>>)
    ensures SortedByParentThenOrder(r)
    ensures multiset(r) == multiset(s)
  {
    if s == [] then []
    else
      var rest := SortByParentThenOrder(s[1..]);
      InsertKeepsSorted(s[0], rest);
      assert s == [s[0]] + s[1..];
      Insert(s[0], rest)
  }

  /** No two rows with the same parent share an order: what the store rules protect. */
  predicate UniqueOrderPerParent<F>(rows: seq<Row<F>>)
  {
    forall i, j | 0 <= i < j < |rows| :: rows[i].parent == rows[j].parent ==> rows[i].order != rows[j].order
  }

  predicate OrderTaken<F>(rows: seq<Row<F>>, parent: int, order: int)
  {
    exists i | 0 <= i < |rows| :: rows[i].parent == parent && rows[i].order == order
  }

  /** Adding a row whose order its parent does not use yet keeps orders unique per parent. */
  lemma AppendKeepsOrdersUnique<F>(rows: seq<Row<F>>, r: Row<F>)
    requires UniqueOrderPerParent(rows)
    requires !OrderTaken(rows, r.parent, r.order)
    ensures UniqueOrderPerParent(rows + [r])
  {
    var s := rows + [r];
    forall i, j | 0 <= i < j < |s| && s[i].parent == s[j].parent
      ensures s[i].order != s[j].order
    {
      if j == |rows| {
        assert rows[i] == s[i];
      }
    }
  }
}
