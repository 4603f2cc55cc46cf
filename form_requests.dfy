/**
  The rule lists of the store/update requests for banners and gallery images,
  each as the set of attributes that fail (empty when the request passes).
 */
module FormRequests {
  import opened Options
  import opened RequestRules
  import opened OrderedRows
  import opened BannerController
  import opened ProductController

  /** `required|file|image|max:2048` */
  predicate ImageRulePasses(v: Input)
  {
    Filled(v) && IsImageWithinLimit(v)
  }

  /**
    `required|integer|min:1` and no existing row of the same parent already has
    that order; the parent is the request's own parent field, and a parent
    field that is not an integer matches no row.
   */
  predicate NewOrderPasses<F>(order: Input, parent: Input, rows: seq<Row<F>>)
  {
    Filled(order) && IntegerAtLeast(order, 1)
    && !(IntegerValue(parent).Some? && OrderTaken(rows, IntegerValue(parent).value, IntegerValue(order).value))
  }

  /** StoreProductGalleryRequest: the attributes whose rules fail. */
  function StoreGalleryErrors(request: map<string, Input>, productIds: set<int>, galleries: seq<GalleryRow>): (r: set<string>)
    ensures r <= {"file", "product_id", "order"}
  {
    var file := Get(request, "file");
    var product := Get(request, "product_id");
    var order := Get(request, "order");
    (if ImageRulePasses(file) then {} else {"file"})
    + (if Filled(product) && ExistsIn(product, productIds) then {} else {"product_id"})
    + (if NewOrderPasses(order, product, galleries) then {} else {"order"})
  }

  /** StoreBannerRequest: the attributes whose rules fail. */
  function StoreBannerErrors(request: map<string, Input>, supplierIds: set<int>, banners: seq<BannerRow>): (r: set<string>)
    ensures r <= {"title", "description", "image", "supplier_id", "is_active", "order"}
  {
    var title := Get(request, "title");
    var description := Get(request, "description");
    var supplier := Get(request, "supplier_id");
    var isActive := Get(request, "is_active");
    var order := Get(request, "order");
    (if Filled(title) && StringAtMost(title, 255) then {} else {"title"})
    + (if Blank(description) || description.Text? then {} else {"description"})
    + (if ImageRulePasses(Get(request, "image")) then {} else {"image"})
    + (if Filled(supplier) && ExistsIn(supplier, supplierIds) then {} else {"supplier_id"})
    + (if isActive == Missing || IsBoolean(isActive) then {} else {"is_active"})
    + (if NewOrderPasses(order, supplier, banners) then {} else {"order"})
  }

  /** UpdateProductGalleryRequest: the attributes whose rules fail. */
  function UpdateGalleryErrors(request: map<string, Input>, productIds: set<int>): (r: set<string>)
    ensures r <= {"file_path", "product_id", "order"}
  {
    var filePath := Get(request, "file_path");
    var product := Get(request, "product_id");
    var order := Get(request, "order");
    (if Filled(filePath) && StringAtMost(filePath, 255) then {} else {"file_path"})
    + (if Filled(product) && ExistsIn(product, productIds) then {} else {"product_id"})
    + (if Blank(order) || IntegerAtLeast(order, 0) then {} else {"order"})
  }

  /**
    A gallery store request passes exactly when it carries an image of at most
    2048 KB, an existing product, and an integer order of at least 1 that no
    gallery image of that product uses yet.
   */
  lemma StoreGalleryAccepts(request: map<string, Input>, productIds: set<int>, galleries: seq<GalleryRow>)
    ensures StoreGalleryErrors(request, productIds, galleries) == {} <==>
      var product := IntegerValue(Get(request, "product_id"));
      var order := IntegerValue(Get(request, "order"));
      IsImageWithinLimit(Get(request, "file"))
      && product.Some? && product.value in productIds
      && order.Some? && order.value >= 1
      && forall i | 0 <= i < |galleries| :: !(galleries[i].parent == product.value && galleries[i].order == order.value)
  {
    IntegerIsFilled(Get(request, "product_id"));
    IntegerIsFilled(Get(request, "order"));
    var errors := StoreGalleryErrors(request, productIds, galleries);
    if errors == {} {
      assert "file" !in errors && "product_id" !in errors && "order" !in errors;
    }
  }

  /**
    An order already used by gallery images of other products only is still
    accepted for this product.
   */
  lemma StoreGalleryOrderIsPerProduct(request: map<string, Input>, productIds: set<int>, galleries: seq<GalleryRow>, product: int, order: int)
    requires IntegerValue(Get(request, "product_id")) == Some(product)
    requires IntegerValue(Get(request, "order")) == Some(order) && order >= 1
    requires forall i | 0 <= i < |galleries| :: galleries[i].order == order ==> galleries[i].parent != product
    ensures "order" !in StoreGalleryErrors(request, productIds, galleries)
  {
    IntegerIsFilled(Get(request, "order"));
  }

  /**
    A banner store request passes exactly when every rule holds; in particular
    its order is an integer of at least 1 that no banner of the same supplier
    uses yet.
   */
  lemma StoreBannerAccepts(request: map<string, Input>, supplierIds: set<int>, banners: seq<BannerRow>)
    ensures StoreBannerErrors(request, supplierIds, banners) == {} <==>
      var title := Get(request, "title");
      var description := Get(request, "description");
      var isActive := Get(request, "is_active");
      var supplier := IntegerValue(Get(request, "supplier_id"));
      var order := IntegerValue(Get(request, "order"));
      title.Text? && Filled(title) && |title.s| <= 255
      && (description == Missing || description == Null || description.Text?)
      && IsImageWithinLimit(Get(request, "image"))
      && supplier.Some? && supplier.value in supplierIds
      && (isActive == Missing || IsBoolean(isActive))
      && order.Some? && order.value >= 1
      && forall i | 0 <= i < |banners| :: !(banners[i].parent == supplier.value && banners[i].order == order.value)
  {
    IntegerIsFilled(Get(request, "supplier_id"));
    IntegerIsFilled(Get(request, "order"));
    var errors := StoreBannerErrors(request, supplierIds, banners);
    if errors == {} {
      assert "title" !in errors && "description" !in errors && "image" !in errors;
      assert "supplier_id" !in errors && "is_active" !in errors && "order" !in errors;
    }
  }

  /**
    Storing the row of an accepted gallery request keeps orders unique per
    product: the per-product check is what protects that invariant.
   */
  lemma StoredGalleryKeepsOrdersUnique(request: map<string, Input>, productIds: set<int>, galleries: seq<GalleryRow>, id: int, columns: GalleryColumns)
    requires UniqueOrderPerParent(galleries)
    requires StoreGalleryErrors(request, productIds, galleries) == {}
    ensures var row := Row(id, IntegerValue(Get(request, "product_id")).value, IntegerValue(Get(request, "order")).value, columns);
      UniqueOrderPerParent(galleries + [row])
  {
    StoreGalleryAccepts(request, productIds, galleries);
    var row := Row(id, IntegerValue(Get(request, "product_id")).value, IntegerValue(Get(request, "order")).value, columns);
    AppendKeepsOrdersUnique(galleries, row);
  }

  /** Likewise for banners and their supplier. */
  lemma StoredBannerKeepsOrdersUnique(request: map<string, Input>, supplierIds: set<int>, banners: seq<BannerRow>, id: int, columns: BannerColumns)
    requires UniqueOrderPerParent(banners)
    requires StoreBannerErrors(request, supplierIds, banners) == {}
    ensures var row := Row(id, IntegerValue(Get(request, "supplier_id")).value, IntegerValue(Get(request, "order")).value, columns);
      UniqueOrderPerParent(banners + [row])
  {
    StoreBannerAccepts(request, supplierIds, banners);
    var row := Row(id, IntegerValue(Get(request, "supplier_id")).value, IntegerValue(Get(request, "order")).value, columns);
    AppendKeepsOrdersUnique(banners, row);
  }

  /**
    A gallery update passes exactly when it carries a file path of at most 255
    characters, an existing product, and an order that is absent, null, or an
    integer of at least 0.
   */
  lemma UpdateGalleryAccepts(request: map<string, Input>, productIds: set<int>)
    ensures UpdateGalleryErrors(request, productIds) == {} <==>
      var filePath := Get(request, "file_path");
      var product := IntegerValue(Get(request, "product_id"));
      var order := Get(request, "order");
      filePath.Text? && Filled(filePath) && |filePath.s| <= 255
      && product.Some? && product.value in productIds
      && (Blank(order) || (IntegerValue(order).Some? && IntegerValue(order).value >= 0))
  {
    IntegerIsFilled(Get(request, "product_id"));
    var errors := UpdateGalleryErrors(request, productIds);
    if errors == {} {
      assert "file_path" !in errors && "product_id" !in errors && "order" !in errors;
    }
  }

  /** Order 0 passes the update rules but not the store rules. */
  lemma ZeroOrderOnlyOnUpdate(store: map<string, Input>, update: map<string, Input>, productIds: set<int>, galleries: seq<GalleryRow>)
    requires Get(store, "order") == Num(0) && Get(update, "order") == Num(0)
    ensures "order" in StoreGalleryErrors(store, productIds, galleries)
    ensures "order" !in UpdateGalleryErrors(update, productIds)
  {
  }

  /**
    The update rules do not look at other gallery images: an update that gives
    an image the order of another image of the same product passes, and the
    table no longer has unique orders per product.
   */
  lemma UpdateMayDuplicateOrder()
    ensures var galleries := [Row(1, 7, 1, GalleryColumns("a.jpg")), Row(2, 7, 2, GalleryColumns("b.jpg"))];
      var update := map["file_path" := Text("b.jpg"), "product_id" := Num(7), "order" := Num(1)];
      UniqueOrderPerParent(galleries)
      && UpdateGalleryErrors(update, {7}) == {}
      && !UniqueOrderPerParent(galleries[1 := galleries[1].(order := 1)])
  {
    var galleries := [Row(1, 7, 1, GalleryColumns("a.jpg")), Row(2, 7, 2, GalleryColumns("b.jpg"))];
    var update := map["file_path" := Text("b.jpg"), "product_id" := Num(7), "order" := Num(1)];
    assert Filled(Text("b.jpg")) by { assert !IsTrimmed("b.jpg"[0]); }
    var after := galleries[1 := galleries[1].(order := 1)];
    assert after[0].parent == after[1].parent && after[0].order == after[1].order;
  }
}
