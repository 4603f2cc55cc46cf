/** The public product API's listing with its optional filters. */
module PublicProducts {
  import opened Options
  import opened RequestRules
  import opened Queries

  /** A product, with the two columns the listing can filter on. */
  datatype Product = Product(id: int, name: string, supplierId: int, categoryId: int)

  /** A `where column = parameter` clause that applies only when the parameter was sent. */
  predicate OptionalEquals(param: Input, column: int)
  {
    param == Missing || IntegerValue(param) == Some(column)
  }

  predicate SupplierMatches(p: Product, supplier: Input)
  {
    OptionalEquals(supplier, p.supplierId)
  }

  predicate CategoryMatches(p: Product, category: Input)
  {
    OptionalEquals(category, p.categoryId)
  }

  /** `index`: the products matching the `supplier` and `category` parameters that were sent. */
  function Index(products: seq<Product>, supplier: Input, category: Input): (r: seq<Product>)
    ensures forall p ::
      multiset(r)[p] == if SupplierMatches(p, supplier) && CategoryMatches(p, category) then multiset(products)[p] else 0
  {
    Select(products, (p: Product) => SupplierMatches(p, supplier) && CategoryMatches(p, category))
  }

  /**
    Without parameters every product is listed, in the order the table holds
    them (the query has no `orderBy`, so the database itself promises none).
   */
  lemma IndexWithoutParameters(products: seq<Product>)
    ensures Index(products, Missing, Missing) == products
  {
    SelectAll(products, (p: Product) => SupplierMatches(p, Missing) && CategoryMatches(p, Missing));
  }

  /**
    With both parameters the listing is the supplier listing filtered again by
    category: the intersection of the two filters, in table order.
   */
  lemma {:induction false} IndexIntersectsFilters(products: seq<Product>, supplier: Input, category: Input)
    ensures Index(products, supplier, category) == Index(Index(products, supplier, Missing), Missing, category)
  {
    if products != [] {
      var init := products[..|products| - 1];
      var last := products[|products| - 1];
      IndexIntersectsFilters(init, supplier, category);
      var mid := Index(products, supplier, Missing);
      if SupplierMatches(last, supplier) {
        assert mid == Index(init, supplier, Missing) + [last];
        assert mid[..|mid| - 1] == Index(init, supplier, Missing);
      } else {
        assert mid == Index(init, supplier, Missing);
      }
    }
  }
}
