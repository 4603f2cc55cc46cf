/**
  The two list primitives the drag-and-drop handlers are built from:
  `Array.prototype.findIndex` on an id, and `arrayMove` from the drag library
  (remove the element at `from`, insert it at `to`).
 */
module ArrayMoves {

  /** Index of the first occurrence of `id`, or -1 when there is none. */
  function FindIndex(ids: seq<int>, id: int): (r: int)
    ensures -1 <= r < |ids|
    ensures r == -1 <==> id !in ids
    ensures r >= 0 ==> ids[r] == id && forall j :: 0 <= j < r ==> ids[j] != id
  {
    if ids == [] then -1
    else if ids[0] == id then 0
    else
      var k := FindIndex(ids[1..], id);
      if k == -1 then -1 else k + 1
  }

  /** The list with its element at `from` removed. */
  function RemoveAt<T>(s: seq<T>, i: nat): (r: seq<T>)
    requires i < |s|
    ensures |r| == |s| - 1
    ensures forall j :: 0 <= j < i ==> r[j] == s[j]
    ensures forall j :: i <= j < |r| ==> r[j] == s[j + 1]
  {
    s[..i] + s[i + 1..]
  }

  /** The list with `x` inserted so that it ends up at index `i`. */
  function InsertAt<T>(s: seq<T>, i: nat, x: T): (r: seq<T>)
    requires i <= |s|
    ensures |r| == |s| + 1 && r[i] == x
    ensures forall j :: 0 <= j < i ==> r[j] == s[j]
    ensures forall j :: i < j < |r| ==> r[j] == s[j - 1]
  {
    s[..i] + [x] + s[i..]
  }

  /** `arrayMove(s, from, to)`: take the element at `from` out and put it back at `to`. */
  function ArrayMove<T>(s: seq<T>, from: nat, to: nat): (r: seq<T>)
    requires from < |s| && to < |s|
    ensures |r| == |s| && r[to] == s[from]
  {
    InsertAt(RemoveAt(s, from), to, s[from])
  }

  /** Where every element of the moved list comes from, when moving forwards or backwards. */
  lemma ArrayMoveAt<T>(s: seq<T>, from: nat, to: nat, j: nat)
    requires from < |s| && to < |s| && j < |s|
    ensures ArrayMove(s, from, to)[j] ==
      if j == to then s[from]
      else if from <= to && from <= j < to then s[j + 1]
      else if to < from && to < j <= from then s[j - 1]
      else s[j]
  {
  }

  lemma MultisetRemoveAt<T>(s: seq<T>, i: nat)
    requires i < |s|
    ensures multiset(RemoveAt(s, i)) + multiset{s[i]} == multiset(s)
  {
    assert s == s[..i] + [s[i]] + s[i + 1..];
  }

  /** Moving an element is a permutation: nothing is lost, nothing is duplicated. */
  lemma {:induction false} ArrayMoveIsPermutation<T>(s: seq<T>, from: nat, to: nat)
    requires from < |s| && to < |s|
    ensures multiset(ArrayMove(s, from, to)) == multiset(s)
  {
    var rest := RemoveAt(s, from);
    MultisetRemoveAt(s, from);
    assert InsertAt(rest, to, s[from]) == rest[..to] + [s[from]] + rest[to..];
    assert rest == rest[..to] + rest[to..];
  }

  /** Moving back from `to` to `from` restores the original list. */
  lemma {:induction false} ArrayMoveUndo<T>(s: seq<T>, from: nat, to: nat)
    requires from < |s| && to < |s|
    ensures ArrayMove(ArrayMove(s, from, to), to, from) == s
  {
    var m := ArrayMove(s, from, to);
    assert RemoveAt(m, to) == RemoveAt(s, from);
    assert m[to] == s[from];
    var r := ArrayMove(m, to, from);
    forall j | 0 <= j < |s| ensures r[j] == s[j] {
    }
  }

  /** Moving an element does not change which elements the list holds. */
  lemma ArrayMoveSameElements<T>(s: seq<T>, from: nat, to: nat, x: T)
    requires from < |s| && to < |s|
    ensures x in ArrayMove(s, from, to) <==> x in s
  {
    ArrayMoveIsPermutation(s, from, to);
    assert x in ArrayMove(s, from, to) <==> x in multiset(ArrayMove(s, from, to));
  }
}
