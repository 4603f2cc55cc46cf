/**
  The drag-and-drop table component: it keeps its own copy `items` of the rows it
  was given, reorders that copy when a row is dropped on another row, and hands
  the reordered list to the page's `onReorder` callback.
 */
module SortableTable {
  import opened Options
  import opened ArrayMoves

  /** A table row: the component only relies on its numeric `id`. */
  datatype Item<T> = Item(id: int, value: T)

  function Ids<T>(items: seq<Item<T>>): (r: seq<int>)
    ensures |r| == |items| && forall i :: 0 <= i < |items| ==> r[i] == items[i].id
  {
    seq(|items|, i requires 0 <= i < |items| => items[i].id)
  }

  /**
    The list a drop produces: `None` when nothing is dropped or a row is dropped
    on itself, otherwise the list with the dragged row moved to the target's place.
   */
  function Dropped<T>(items: seq<Item<T>>, active: int, over: Option<int>): (r: Option<seq<Item<T>>>)
    requires active in Ids(items)
    requires over.Some? ==> over.value in Ids(items)
  {
    if over.None? || active == over.value then None
    else Some(ArrayMove(items, FindIndex(Ids(items), active), FindIndex(Ids(items), over.value)))
  }

  /**
    A drop onto another row is a permutation of the table that puts the dragged
    row where the target row was; ids are preserved as a multiset.
   */
  lemma {:induction false} DroppedMovesActiveToTarget<T>(items: seq<Item<T>>, active: int, over: Option<int>)
    requires active in Ids(items)
    requires over.Some? ==> over.value in Ids(items)
    ensures Dropped(items, active, over).None? <==> over.None? || over.value == active
    ensures Dropped(items, active, over).Some? ==>
      var r := Dropped(items, active, over).value;
      && |r| == |items|
      && multiset(r) == multiset(items)
      && multiset(Ids(r)) == multiset(Ids(items))
      && r[FindIndex(Ids(items), over.value)].id == active
  {
    if over.Some? && over.value != active {
      var from, to := FindIndex(Ids(items), active), FindIndex(Ids(items), over.value);
      var r := ArrayMove(items, from, to);
      ArrayMoveIsPermutation(items, from, to);
      ArrayMoveIsPermutation(Ids(items), from, to);
      assert Ids(r) == ArrayMove(Ids(items), from, to) by {
        forall j | 0 <= j < |r| ensures Ids(r)[j] == ArrayMove(Ids(items), from, to)[j] {
          ArrayMoveAt(items, from, to, j);
          ArrayMoveAt(Ids(items), from, to, j);
        }
      }
    }
  }

  class SortableDataTable<T> {
    /** The component's `items` state: the rows in display order. */
    var items: seq<Item<T>>

    /** `useState(data)`. */
    constructor (data: seq<Item<T>>)
      ensures items == data
    {
      items := data;
    }

    /** The effect that runs whenever the `data` prop changes: `setItems(data)`. */
    method SyncData(data: seq<Item<T>>)
      modifies this
      ensures items == data
    {
      items := data;
    }

    /**
      `handleDragEnd`: the drag library reports the dragged row's id and the id
      of the row under the pointer (none when dropped outside). Returns the list
      passed to `onReorder`, or None when the callback is not called.
     */
    method HandleDragEnd(active: int, over: Option<int>) returns (reordered: Option<seq<Item<T>>>)
      requires active in Ids(items)
      requires over.Some? ==> over.value in Ids(items)
      modifies this
      ensures reordered == Dropped(old(items), active, over)
      ensures reordered.None? ==> items == old(items)
      ensures reordered.Some? ==> items == reordered.value
    {
      if over.Some? && active != over.value {
        var oldIndex := FindIndex(Ids(items), active);
        var newIndex := FindIndex(Ids(items), over.value);
        var newItems := ArrayMove(items, oldIndex, newIndex);
        items := newItems;
        reordered := Some(newItems);
      } else {
        reordered := None;
      }
    }
  }
}
