/** Read-only queries: a `where` clause keeps the rows satisfying a condition. */
module Queries {

  /** The elements of `s` satisfying `keep`, in their original order. */
  function Select<T(!new)>(s: seq<T>, keep: T -> bool): (r: seq<T>)
    ensures forall x :: multiset(r)[x] == if keep(x) then multiset(s)[x] else 0
    ensures forall i | 0 <= i < |r| :: keep(r[i])
  {
    if s == [] then []
    else
      var rest := Select(s[..|s| - 1], keep);
      var last := s[|s| - 1];
      assert s == s[..|s| - 1] + [last];
      if keep(last) then rest + [last] else rest
  }

  /** A condition every element satisfies keeps the whole sequence. */
  lemma {:induction false} SelectAll<T(!new)>(s: seq<T>, keep: T -> bool)
    requires forall i | 0 <= i < |s| :: keep(s[i])
    ensures Select(s, keep) == s
  {
    if s != [] {
      var init := s[..|s| - 1];
      assert forall i | 0 <= i < |init| :: init[i] == s[i];
      SelectAll(init, keep);
      assert keep(s[|s| - 1]);
      calc {
        Select(s, keep);
        Select(init, keep) + [s[|s| - 1]];
        init + [s[|s| - 1]];
        s;
      }
    }
  }

  /** Conditions that agree on every element select the same elements. */
  lemma {:induction false} SelectSame<T(!new)>(s: seq<T>, p: T -> bool, q: T -> bool)
    requires forall i | 0 <= i < |s| :: p(s[i]) == q(s[i])
    ensures Select(s, p) == Select(s, q)
  {
    if s != [] {
      var init := s[..|s| - 1];
      assert forall i | 0 <= i < |init| :: init[i] == s[i];
      SelectSame(init, p, q);
    }
  }
}
