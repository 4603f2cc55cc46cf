/**
  The web banner controller: the admin listing and the per-supplier reorder
  endpoint.
 */
module BannerController {
  import opened Options
  import opened RequestRules
  import opened OrderedRows
  import opened ReorderRequests

  /** A banner's columns besides id, supplier_id (the row's parent) and order. */
  datatype BannerColumns = BannerColumns(title: string, description: Option<string>, imagePath: Option<string>, isActive: bool)

  type BannerRow = Row<BannerColumns>

  /** `index`: every banner, ordered by supplier, then by order. */
  function Index(banners: seq<BannerRow>): (r: seq<BannerRow>)
    ensures SortedByParentThenOrder(r)
    ensures multiset(r) == multiset(banners)
  {
    SortByParentThenOrder(banners)
  }

  /** A reorder request that passed validation. */
  datatype BannerReorder = BannerReorder(supplierId: int, entries: seq<OrderEntry>)

  /**
    The rules of `reorderBanners`: `supplier_id` required and an existing
    supplier, `banners` a non-empty array whose entries name existing banners
    and carry integer orders of at least 1.
   */
  function ValidateReorder(request: map<string, Input>, supplierIds: set<int>, bannerIds: set<int>): (r: Option<BannerReorder>)
    ensures r.Some? <==>
      var list := Get(request, "banners");
      ExistsIn(Get(request, "supplier_id"), supplierIds)
      && list.List? && list.items != []
      && forall i | 0 <= i < |list.items| ::
        ExistsIn(FieldOf(list.items[i], "id"), bannerIds) && IntegerAtLeast(FieldOf(list.items[i], "order"), 1)
    ensures r.Some? ==>
      Some(r.value.supplierId) == IntegerValue(Get(request, "supplier_id"))
      && Some(r.value.entries) == ReadOrderList(Get(request, "banners"), bannerIds, Some(1))
  {
    var supplier := Get(request, "supplier_id");
    var entries := ReadOrderList(Get(request, "banners"), bannerIds, Some(1));
    EntriesValidMean(Get(request, "banners"), bannerIds, Some(1));
    IntegerIsFilled(supplier);
    if Filled(supplier) && ExistsIn(supplier, supplierIds) && entries.Some? then
      Some(BannerReorder(IntegerValue(supplier).value, entries.value))
    else
      None
  }

  /**
    `reorderBanners`: validate the whole payload, then run one UPDATE per entry
    restricted to the requested supplier.
   */
  method ReorderBanners(banners: Table<BannerColumns>, supplierIds: set<int>, request: map<string, Input>)
    returns (response: Response)
    modifies banners
    ensures ValidateReorder(request, supplierIds, IdsOf(old(banners.rows))).None? ==>
      response == ValidationFailed && banners.rows == old(banners.rows)
    ensures ValidateReorder(request, supplierIds, IdsOf(old(banners.rows))).Some? ==>
      var v := ValidateReorder(request, supplierIds, IdsOf(old(banners.rows))).value;
      response == RedirectBack && banners.rows == ApplyEntries(old(banners.rows), v.entries, Some(v.supplierId))
  {
    var validated := ValidateReorder(request, supplierIds, IdsOf(banners.rows));
    if validated.None? {
      return ValidationFailed;
    }
    banners.UpdateOrders(validated.value.entries, Some(validated.value.supplierId));
    response := RedirectBack;
  }

  /**
    After an accepted reorder, a listed banner of the requested supplier has the
    order of its last entry; a banner of another supplier, or one not listed,
    is untouched; among the modelled columns only `order` changes (the
    `updated_at` timestamp is not modelled).
   */
  lemma ReorderedBanner(rows: seq<BannerRow>, v: BannerReorder, k: int)
    requires 0 <= k < |rows|
    ensures var after := ApplyEntries(rows, v.entries, Some(v.supplierId));
      (rows[k].parent == v.supplierId && LastOrder(v.entries, rows[k].id).Some? ==>
            after[k] == rows[k].(order := LastOrder(v.entries, rows[k].id).value))
      && (rows[k].parent != v.supplierId ==> after[k] == rows[k])
      && (LastOrder(v.entries, rows[k].id).None? ==> after[k] == rows[k])
  {
    ApplyEntriesAt(rows, v.entries, Some(v.supplierId), k);
  }
}
