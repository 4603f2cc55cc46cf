/** The web product controller's gallery reorder endpoint. */
module ProductController {
  import opened Options
  import opened RequestRules
  import opened OrderedRows
  import opened ReorderRequests

  /** A gallery image's columns besides id, product_id (the row's parent) and order. */
  datatype GalleryColumns = GalleryColumns(filePath: string)

  type GalleryRow = Row<GalleryColumns>

  /**
    The rules of `reorderGalleries`: `galleries` a non-empty array whose entries
    name existing gallery images and carry integer orders of at least 1.
   */
  function ValidateReorder(request: map<string, Input>, galleryIds: set<int>): (r: Option<seq<OrderEntry>>)
    ensures r.Some? <==>
      var list := Get(request, "galleries");
      list.List? && list.items != []
      && forall i | 0 <= i < |list.items| ::
        ExistsIn(FieldOf(list.items[i], "id"), galleryIds) && IntegerAtLeast(FieldOf(list.items[i], "order"), 1)
  {
    EntriesValidMean(Get(request, "galleries"), galleryIds, Some(1));
    ReadOrderList(Get(request, "galleries"), galleryIds, Some(1))
  }

  /**
    `reorderGalleries`: the `{product}` route parameter must name a product
    (route model binding answers 404 otherwise); then the payload is validated
    and one UPDATE per entry runs, matched on the gallery id alone.
   */
  method ReorderGalleries(galleries: Table<GalleryColumns>, productIds: set<int>, product: int, request: map<string, Input>)
    returns (response: Response)
    modifies galleries
    ensures product !in productIds ==> response == NotFound && galleries.rows == old(galleries.rows)
    ensures product in productIds && ValidateReorder(request, IdsOf(old(galleries.rows))).None? ==>
      response == ValidationFailed && galleries.rows == old(galleries.rows)
    ensures product in productIds && ValidateReorder(request, IdsOf(old(galleries.rows))).Some? ==>
      response == RedirectBack
      && galleries.rows == ApplyEntries(old(galleries.rows), ValidateReorder(request, IdsOf(old(galleries.rows))).value, None)
  {
    if product !in productIds {
      return NotFound;
    }
    var entries := ValidateReorder(request, IdsOf(galleries.rows));
    if entries.None? {
      return ValidationFailed;
    }
    galleries.UpdateOrders(entries.value, None);
    response := RedirectBack;
  }

  /**
    The route's product does not restrict the update: a listed gallery image of
    any product, the routed one or another, ends with its last entry's order.
   */
  lemma ReorderIgnoresRouteProduct(rows: seq<GalleryRow>, entries: seq<OrderEntry>, product: int, k: int)
    requires 0 <= k < |rows|
    requires LastOrder(entries, rows[k].id).Some?
    ensures ApplyEntries(rows, entries, None)[k] == rows[k].(order := LastOrder(entries, rows[k].id).value)
  {
    ApplyEntriesAt(rows, entries, None, k);
  }

  /** A gallery image no entry names keeps its row. */
  lemma UnlistedGalleryUnchanged(rows: seq<GalleryRow>, entries: seq<OrderEntry>, k: int)
    requires 0 <= k < |rows|
    requires forall i | 0 <= i < |entries| :: entries[i].id != rows[k].id
    ensures ApplyEntries(rows, entries, None)[k] == rows[k]
  {
    ApplyEntriesAt(rows, entries, None, k);
  }
}
