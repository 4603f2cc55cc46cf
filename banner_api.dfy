/** The public banner API: listings filtered by query parameters. */
module BannerApi {
  import opened Options
  import opened RequestRules
  import opened OrderedRows
  import opened Queries
  import opened BannerController

  function LowerChar(c: char): char
  {
    if 'A' <= c <= 'Z' then (c as int - 'A' as int + 'a' as int) as char else c
  }

  function Lower(s: string): string
  {
    seq(|s|, i requires 0 <= i < |s| => LowerChar(s[i]))
  }

  /** `$request->boolean(key)`: true for true, 1, and "1", "true", "on", "yes" in any case; false otherwise. */
  function BooleanParam(v: Input): bool
  {
    match v
    case Flag(b) => b
    case Num(n) => n == 1
    case Text(s) => Lower(s) in {"1", "true", "on", "yes"}
    case _ => false
  }

  /**
    The `where` clauses of `index`: a `supplier_id` parameter, when sent, must
    equal the banner's supplier; an `is_active` parameter, when sent, must equal
    its flag once read as a boolean.
   */
  predicate Matches(b: BannerRow, supplier: Input, isActive: Input)
  {
    (supplier == Missing || IntegerValue(supplier) == Some(b.parent))
    && (isActive == Missing || b.fields.isActive == BooleanParam(isActive))
  }

  /** `index`: the matching banners, ordered by supplier, then by order. */
  function Index(banners: seq<BannerRow>, supplier: Input, isActive: Input): (r: seq<BannerRow>)
    ensures SortedByParentThenOrder(r)
    ensures forall b :: multiset(r)[b] == if Matches(b, supplier, isActive) then multiset(banners)[b] else 0
  {
    SortByParentThenOrder(Select(banners, (b: BannerRow) => Matches(b, supplier, isActive)))
  }

  /** Without parameters `index` lists every banner exactly once. */
  lemma IndexWithoutParameters(banners: seq<BannerRow>)
    ensures multiset(Index(banners, Missing, Missing)) == multiset(banners)
  {
    var r := Index(banners, Missing, Missing);
    assert forall b :: multiset(r)[b] == multiset(banners)[b];
  }

  /**
    `bySupplier`: the active banners of one supplier, ascending by order
    (every row shares the supplier, so ordering by (supplier, order) is
    ordering by order).
   */
  function BySupplier(banners: seq<BannerRow>, supplierId: int): (r: seq<BannerRow>)
    ensures forall b :: multiset(r)[b] == if b.parent == supplierId && b.fields.isActive then multiset(banners)[b] else 0
    ensures forall i, j | 0 <= i < j < |r| :: r[i].order <= r[j].order
  {
    var r := SortByParentThenOrder(Select(banners, (b: BannerRow) => b.parent == supplierId && b.fields.isActive));
    forall i | 0 <= i < |r|
      ensures r[i].parent == supplierId
    {
      assert r[i] in multiset(r);
    }
    r
  }

  /** `active`: the active banners, ordered by supplier, then by order. */
  function Active(banners: seq<BannerRow>): (r: seq<BannerRow>)
    ensures SortedByParentThenOrder(r)
    ensures forall b :: multiset(r)[b] == if b.fields.isActive then multiset(banners)[b] else 0
  {
    SortByParentThenOrder(Select(banners, (b: BannerRow) => b.fields.isActive))
  }

  /** `active` lists what `index?is_active=1` lists. */
  lemma ActiveIsIndexOfActive(banners: seq<BannerRow>)
    ensures Active(banners) == Index(banners, Missing, Text("1"))
  {
    assert Lower("1") == "1";
    SelectSame(banners, (b: BannerRow) => b.fields.isActive, (b: BannerRow) => Matches(b, Missing, Text("1")));
  }

  /** `bySupplier/{id}` lists what `index?supplier_id={id}&is_active=1` lists. */
  lemma BySupplierIsIndexOfActive(banners: seq<BannerRow>, supplierId: int)
    requires PhpIntMin <= supplierId <= PhpIntMax
    ensures BySupplier(banners, supplierId) == Index(banners, Num(supplierId), Text("1"))
  {
    assert Lower("1") == "1";
    SelectSame(banners, (b: BannerRow) => b.parent == supplierId && b.fields.isActive, (b: BannerRow) => Matches(b, Num(supplierId), Text("1")));
  }
}
