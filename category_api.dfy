/** The category API's reorder endpoint. */
module CategoryApi {
  import opened Options
  import opened RequestRules
  import opened OrderedRows
  import opened ReorderRequests

  /** A category's columns besides id, supplier_id (the row's parent) and order. */
  datatype CategoryColumns = CategoryColumns(name: string, description: Option<string>)

  type CategoryRow = Row<CategoryColumns>

  const ReorderedMessage: string := "Urutan kategori berhasil diperbarui."

  /**
    The rules of `reorder`: `categories` a non-empty array whose entries name
    existing categories and carry integer orders, with no lower bound.
   */
  function ValidateReorder(request: map<string, Input>, categoryIds: set<int>): (r: Option<seq<OrderEntry>>)
    ensures r.Some? <==>
      var list := Get(request, "categories");
      list.List? && list.items != []
      && forall i | 0 <= i < |list.items| ::
        ExistsIn(FieldOf(list.items[i], "id"), categoryIds) && IntegerValue(FieldOf(list.items[i], "order")).Some?
  {
    EntriesValidMean(Get(request, "categories"), categoryIds, None);
    ReadOrderList(Get(request, "categories"), categoryIds, None)
  }

  /**
    `reorder`: validate, then one UPDATE per entry matched on the category id
    alone, and answer with a JSON message.
   */
  method Reorder(categories: Table<CategoryColumns>, request: map<string, Input>) returns (response: Response)
    modifies categories
    ensures ValidateReorder(request, IdsOf(old(categories.rows))).None? ==>
      response == ValidationFailed && categories.rows == old(categories.rows)
    ensures ValidateReorder(request, IdsOf(old(categories.rows))).Some? ==>
      response == Json(ReorderedMessage)
      && categories.rows == ApplyEntries(old(categories.rows), ValidateReorder(request, IdsOf(old(categories.rows))).value, None)
  {
    var entries := ValidateReorder(request, IdsOf(categories.rows));
    if entries.None? {
      return ValidationFailed;
    }
    categories.UpdateOrders(entries.value, None);
    response := Json(ReorderedMessage);
  }

  /**
    Any 64-bit order is accepted for an existing category, zero and negative
    ones included, where the banner and gallery endpoints demand at least 1.
   */
  lemma ReorderAcceptsAnyOrder(categoryIds: set<int>, id: int, order: int)
    requires id in categoryIds && PhpIntMin <= id <= PhpIntMax && PhpIntMin <= order <= PhpIntMax
    ensures ValidateReorder(map["categories" := Payload([OrderEntry(id, order)])], categoryIds)
      == Some([OrderEntry(id, order)])
    ensures order < 1 ==> ReadOrderList(Payload([OrderEntry(id, order)]), categoryIds, Some(1)).None?
  {
    PayloadRoundTrip([OrderEntry(id, order)], categoryIds, None);
    var list := Payload([OrderEntry(id, order)]);
    assert FieldOf(list.items[0], "order") == Num(order);
  }
}
