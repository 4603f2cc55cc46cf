# Ordered collections of the product admin panel, in Dafny

This project models the logic of a Laravel + React admin panel for suppliers,
products, galleries and banners that has behaviour worth stating. That logic is
mostly about **ordered collections**. Banners, product gallery images and
product categories each carry an integer `order` within a parent: the banner's
supplier, the image's product, the category's supplier. The model covers:

- **The banner page** (`banners/index.tsx`):
  - grouping the server's list by supplier;
  - drag-and-drop within one supplier's list, which renumbers that list
    1..N, posts it, and rolls the state back if the post fails;
  - deleting a banner, which removes it from its group and drops the group
    once it is empty.
- **The sortable table component**, which holds its own copy of the rows,
  moves one row on drop, and resyncs when its input changes.
- **The three reorder endpoints** (banners, galleries, categories). Each
  validates the whole `{id, order}` list and then issues one UPDATE per entry.
  They differ in two ways:
  - banner updates are restricted to the requested supplier; gallery and
    category updates are not restricted at all;
  - categories accept any integer order; the other two require at least 1.
- **The store/update request rules** for banners and gallery images, including
  the check that an order is unique per parent.
- **The public listings** of banners and products: optional equality filters,
  then a sort on (supplier, order).
- **Two UI state machines and one lookup**:
  - the image preview: zoom clamped to 0.5x–3x, rotation in steps of 90°,
    panning by dragging;
  - the delete-confirmation dialog;
  - the translation lookup, which falls back to the key.

Files and modules:

| file | module | what |
|---|---|---|
| `options.dfy` | `Options` | `Option` |
| `array_moves.dfy` | `ArrayMoves` | `findIndex` and `arrayMove` on sequences |
| `sortable_data_table.dfy` | `SortableTable` | the sortable table component (class `SortableDataTable`) |
| `banners_page.dfy` | `BannersPage` | the banner page: grouping, drag, rollback, delete (class `BannersIndex`) |
| `request_rules.dfy` | `RequestRules` | request values and the framework rules the rule lists use |
| `ordered_rows.dfy` | `OrderedRows` | tables of ordered rows, the UPDATE statement, the (parent, order) sort (class `Table`) |
| `reorder_requests.dfy` | `ReorderRequests` | the `{id, order}` list payload and its validation |
| `banner_controller.dfy` | `BannerController` | the admin banner listing and `reorderBanners` |
| `product_controller.dfy` | `ProductController` | `reorderGalleries` |
| `category_api.dfy` | `CategoryApi` | the category `reorder` endpoint |
| `form_requests.dfy` | `FormRequests` | the store/update rule lists |
| `queries.dfy` | `Queries` | `where` as an order-preserving selection |
| `banner_api.dfy` | `BannerApi` | public banner `index`, `bySupplier`, `active` |
| `public_products.dfy` | `PublicProducts` | public product `index` |
| `reorder_round_trip.dfy` | `ReorderRoundTrip` | the banner page's post as the banner controller receives it |
| `image_preview.dfy` | `ImagePreview` | the image preview dialog (class `ImagePreviewDialog`) |
| `delete_confirmation.dfy` | `DeleteConfirmation` | the delete-confirmation hook (class `DeleteDialog`) |
| `translations.dfy` | `Translations` | `t` and `useTranslation` |

## How the model is built

**Imperative parts become methods and classes.**
- Each piece of the source that changes state step by step is a method or a
  class with `modifies` clauses:
  - the grouping `reduce` that pushes into an accumulator;
  - the `forEach` that deletes from a copied map;
  - the components' state fields;
  - the controllers' UPDATE loops.
- Each such method is proved against a function. For example,
  `Table.UpdateOrders` ends with `rows == ApplyEntries(old(rows), entries, scope)`.
- Lemmas then prove the properties of that function.

**A table is a sequence of rows.** Each row is `Row(id, parent, order, fields)`.
One `UPDATE ... WHERE id = ? [AND supplier_id = ?]` is `SetOrder`. `exists:`
rules are membership in the set of ids of the table or the id set passed in.

**Request values are an `Input` datatype.**
- Its cases cover a missing key, null, integer, string, boolean, list, record
  and uploaded file.
- Each framework rule is a predicate on it.
- `integer` reads strings as an optional sign followed by a numeral with no
  leading zeros, within the 64-bit range.

**Outside effects become parameters.** The outcome of each HTTP request the
pages send (success or failure) is a method parameter. The values read from
local storage are too.

**Image preview units.** Scale is counted in quarter steps (2..12, where 4 is
1x). Positions and pointer coordinates are integers.

## Model

| member | source | states |
|---|---|---|
| ArrayMoves.FindIndex | resources/js/components/ui/sortable-data-table.tsx:104-105 | returns -1 exactly when the id is absent, otherwise the first index holding it |
| ArrayMoves.ArrayMove | resources/js/components/ui/sortable-data-table.tsx:107 | same length; the moved element ends at the target index |
| ArrayMoves.ArrayMoveAt | resources/js/pages/banners/index.tsx:140 | where every element of the moved list comes from, for forward and backward moves |
| ArrayMoves.ArrayMoveIsPermutation | resources/js/components/ui/sortable-data-table.tsx:107 | the moved list is a permutation of the original (equal multisets) |
| ArrayMoves.ArrayMoveUndo | resources/js/components/ui/sortable-data-table.tsx:107 | moving back from the target to the source restores the original list |
| ArrayMoves.ArrayMoveSameElements | resources/js/components/ui/sortable-data-table.tsx:107 | moving holds exactly the same elements as before |
| SortableTable.DroppedMovesActiveToTarget | resources/js/components/ui/sortable-data-table.tsx:100-111 | no result exactly when there is no target or the target is the dragged row; otherwise a permutation of the same length, with the same id multiset and the dragged row at the target's old index |
| SortableTable.SortableDataTable.constructor | resources/js/components/ui/sortable-data-table.tsx:81 | `items` starts as the given data |
| SortableTable.SortableDataTable.SyncData | resources/js/components/ui/sortable-data-table.tsx:83-85 | when the data changes, `items` becomes that data |
| SortableTable.SortableDataTable.HandleDragEnd | resources/js/components/ui/sortable-data-table.tsx:100-111 | the list passed to `onReorder` is the drop's result and is exactly what `items` now holds; with no drop result, `items` is unchanged and nothing is passed |
| BannersPage.GroupBySupplier | resources/js/pages/banners/index.tsx:104-114 | the accumulator ends as a grouping of the input: one non-empty group per supplier id, holding that supplier's banners in input order, with the supplier of its first banner |
| BannersPage.GroupingPlacesEachBannerOnce | resources/js/pages/banners/index.tsx:104-114 | every banner is in the group keyed by its supplier id, and in no other group |
| BannersPage.OfSupplierMembers | resources/js/pages/banners/index.tsx:104-114 | a banner is in one supplier's selection exactly when it is in the input and belongs to that supplier |
| BannersPage.GroupingIsWellGrouped | resources/js/pages/banners/index.tsx:104-114 | groups are non-empty and hold only banners of their key's supplier |
| BannersPage.GroupingPartitionsInput | resources/js/pages/banners/index.tsx:104-114 | the groups' lists together are a permutation of the input, so the counts add up to the input's count |
| BannersPage.GroupAscendingByOrder | resources/js/pages/banners/index.tsx:112 | if the input is sorted by (supplier id, order), each group is ascending by order |
| BannersPage.Renumbered | resources/js/pages/banners/index.tsx:142-145 | one update per banner of the list, in list order, numbered 1..N |
| BannersPage.DragChangesOnlyItsGroup | resources/js/pages/banners/index.tsx:130-168 | with no target, or onto itself: no change and no request; otherwise the same groups, every other group unchanged, the dragged list a permutation with the dragged banner at the target's index, and the request equal to that list renumbered 1..N |
| BannersPage.DragKeepsWellGrouped | resources/js/pages/banners/index.tsx:162-168 | a drag keeps every group non-empty and holding only its supplier's banners |
| BannersPage.RemoveBanner | resources/js/pages/banners/index.tsx:184-207 | the loop over a copy of the state ends with the state `AfterDelete` specifies |
| BannersPage.DeleteRemovesOnlyThatBanner | resources/js/pages/banners/index.tsx:184-207 | no new groups; a group is dropped exactly when all its banners had that id; a surviving group keeps exactly its other banners; groups without the id are untouched |
| BannersPage.DeleteKeepsWellGrouped | resources/js/pages/banners/index.tsx:184-207 | deleting keeps the groups non-empty and supplier-pure |
| BannersPage.OfSupplierWithout | resources/js/pages/banners/index.tsx:190 | filtering out an id commutes with selecting one supplier's banners |
| BannersPage.DeleteCommutesWithGrouping | resources/js/pages/banners/index.tsx:184-207 | deleting from the grouped state gives the grouping of the list without that banner |
| BannersPage.BannersIndex.constructor | resources/js/pages/banners/index.tsx:104-121 | the state starts as the grouping of the server's list, with the dialog closed |
| BannersPage.BannersIndex.HandleDragEnd | resources/js/pages/banners/index.tsx:130-171 | the state becomes the drag's result; a request is pending exactly when there is a target other than the dragged banner; the pending request keeps the pre-drag state for rollback |
| BannersPage.BannersIndex.ReorderSettled | resources/js/pages/banners/index.tsx:152-158 | success keeps the state; failure restores exactly the pre-drag state |
| BannersPage.BannersIndex.HandleDelete | resources/js/pages/banners/index.tsx:173-175 | the dialog opens for that id and title; the groups are unchanged |
| BannersPage.BannersIndex.CancelDelete | resources/js/pages/banners/index.tsx:273 | the dialog is reset to closed, with no id and an empty title |
| BannersPage.BannersIndex.SetDialogOpen | resources/js/pages/banners/index.tsx:264 | only the dialog's `open` flag changes |
| BannersPage.BannersIndex.ConfirmDelete | resources/js/pages/banners/index.tsx:177-216 | with no id or the falsy id 0, nothing is sent and nothing changes; otherwise the delete is sent for that id, the dialog closes on either outcome, and the groups become `AfterDelete` only on success |
| RequestRules.ParseDecimal | app/Http/Requests/StoreBannerRequest.php:24 | the `integer` rule reads the decimal numeral of any 64-bit integer back as that integer |
| RequestRules.TextNumeralIsInteger | app/Http/Requests/StoreBannerRequest.php:22-25 | a form field holding an integer's numeral is the same integer as the JSON number |
| RequestRules.IntegerIsFilled | app/Http/Requests/StoreBannerRequest.php:22-24 | a value the `integer` rule accepts also passes `required` |
| OrderedRows.SetOrder | app/Http/Controllers/BannerController.php:91-93 | one UPDATE: exactly the rows matching the id (and the parent, when scoped) get the new order; every other row is unchanged (`updated_at` is not modelled) |
| OrderedRows.ApplyEntries | app/Http/Controllers/BannerController.php:90-94 | the entries, applied in order, keep the table's length |
| OrderedRows.LastOrder | app/Http/Controllers/BannerController.php:90-94 | no value exactly when no entry names the id; otherwise the order of an entry for the id that no later entry for the id follows |
| OrderedRows.ApplyEntriesAt | app/Http/Controllers/BannerController.php:90-94 | after the loop, a row in scope that some entry names has its last entry's order; every other row, and every modelled column but `order`, is unchanged (the `updated_at` the update also sets is not modelled) |
| OrderedRows.Table.UpdateOrder | app/Http/Controllers/BannerController.php:91-93 | the table after one UPDATE is `SetOrder` of the table before |
| OrderedRows.Table.UpdateOrders | app/Http/Controllers/BannerController.php:90-94 | the loop leaves the table as `ApplyEntries` of the table before |
| OrderedRows.SortByParentThenOrder | app/Http/Controllers/BannerController.php:17 | the result is sorted by (parent, order) and is a permutation of the rows |
| OrderedRows.AppendKeepsOrdersUnique | app/Http/Requests/StoreBannerRequest.php:26-28 | adding a row whose parent does not use its order yet keeps orders unique per parent |
| ReorderRequests.ReadEntries | app/Http/Controllers/BannerController.php:85-86 | a list is read exactly when every entry has an existing id and an integer order within the bound; then there is one entry per item, in order |
| ReorderRequests.ReadOrderList | app/Http/Controllers/BannerController.php:84-86 | accepted exactly when the value is a non-empty array whose entries all pass |
| ReorderRequests.Payload | resources/js/pages/banners/index.tsx:147-149 | the posted array has one item per entry |
| ReorderRequests.PayloadRoundTrip | resources/js/pages/banners/index.tsx:147-149 | a posted list of existing ids with 64-bit orders within the bound is read back as the same entries |
| BannerController.Index | app/Http/Controllers/BannerController.php:15-19 | every banner, sorted by (supplier id, order) |
| BannerController.ValidateReorder | app/Http/Controllers/BannerController.php:82-87 | accepted exactly when the supplier exists, `banners` is a non-empty array, every id exists and every order is an integer of at least 1 |
| BannerController.ReorderBanners | app/Http/Controllers/BannerController.php:80-97 | when validation fails, no row changes; otherwise redirect back, after one supplier-scoped UPDATE per entry |
| BannerController.ReorderedBanner | app/Http/Controllers/BannerController.php:90-94 | a listed banner of the supplier gets its last entry's order; a banner of another supplier, or an unlisted one, is untouched |
| ProductController.ValidateReorder | app/Http/Controllers/ProductController.php:128-132 | accepted exactly when `galleries` is a non-empty array, every id exists and every order is an integer of at least 1 |
| ProductController.ReorderGalleries | app/Http/Controllers/ProductController.php:126-140 | an unknown product gives 404 and a validation failure changes nothing; otherwise one UPDATE per entry, not restricted to the product |
| ProductController.ReorderIgnoresRouteProduct | app/Http/Controllers/ProductController.php:126-136 | a listed gallery image of any product, including another one, gets its last entry's order |
| ProductController.UnlistedGalleryUnchanged | app/Http/Controllers/ProductController.php:134-137 | an image no entry names keeps its whole row |
| CategoryApi.ValidateReorder | app/Http/Controllers/Api/CategoryController.php:83-87 | accepted exactly when `categories` is a non-empty array, every id exists and every order is an integer, with no lower bound |
| CategoryApi.Reorder | app/Http/Controllers/Api/CategoryController.php:81-97 | a validation failure changes nothing; otherwise one unscoped UPDATE per entry and the JSON message |
| CategoryApi.ReorderAcceptsAnyOrder | app/Http/Controllers/Api/CategoryController.php:86 | any 64-bit order is accepted, including zero and negative ones, which the `min:1` rule would reject |
| FormRequests.StoreGalleryErrors | app/Http/Requests/StoreProductGalleryRequest.php:23-43 | errors are reported only on `file`, `product_id` and `order` |
| FormRequests.StoreBannerErrors | app/Http/Requests/StoreBannerRequest.php:14-31 | errors are reported only on the six fields of the rule list |
| FormRequests.UpdateGalleryErrors | app/Http/Requests/UpdateProductGalleryRequest.php:23-30 | errors are reported only on `file_path`, `product_id` and `order` |
| FormRequests.StoreGalleryAccepts | app/Http/Requests/StoreProductGalleryRequest.php:25-41 | passes exactly when there is an image of at most 2048 KB, an existing product, and an integer order of at least 1 that no image of that product uses |
| FormRequests.StoreGalleryOrderIsPerProduct | app/Http/Requests/StoreProductGalleryRequest.php:32-40 | an order used only by other products' images is accepted |
| FormRequests.StoredGalleryKeepsOrdersUnique | app/Http/Requests/StoreProductGalleryRequest.php:32-40 | storing an accepted image keeps image orders unique per product |
| FormRequests.StoreBannerAccepts | app/Http/Requests/StoreBannerRequest.php:16-29 | passes exactly when: the title is a non-blank string of at most 255 characters; the description is absent, null or a string; the image is at most 2048 KB; the supplier exists; `is_active` is absent or boolean; and the order is an integer of at least 1 not yet used by that supplier |
| FormRequests.StoredBannerKeepsOrdersUnique | app/Http/Requests/StoreBannerRequest.php:22-29 | storing an accepted banner keeps banner orders unique per supplier |
| FormRequests.UpdateGalleryAccepts | app/Http/Requests/UpdateProductGalleryRequest.php:25-29 | passes exactly when the file path is a non-blank string of at most 255 characters, the product exists, and the order is absent, null or an integer of at least 0 |
| FormRequests.ZeroOrderOnlyOnUpdate | app/Http/Requests/UpdateProductGalleryRequest.php:28 | order 0 fails the store rules and passes the update rules |
| FormRequests.UpdateMayDuplicateOrder | app/Http/Requests/UpdateProductGalleryRequest.php:25-29 | an update that passes can give an image the order of another image of the same product |
| Queries.Select | app/Http/Controllers/Api/PublicProductController.php:26 | keeps each element exactly as often as it occurs when it satisfies the condition, and no other element |
| BannerApi.Index | app/Http/Controllers/Api/BannerController.php:17-36 | sorted by (supplier id, order); each banner occurs exactly as often as in the table when it matches every parameter that was sent, and not at all otherwise |
| BannerApi.IndexWithoutParameters | app/Http/Controllers/Api/BannerController.php:19-33 | with no parameters every banner is listed, exactly once per occurrence |
| BannerApi.BySupplier | app/Http/Controllers/Api/BannerController.php:51-61 | exactly the active banners of the supplier, ascending by order |
| BannerApi.Active | app/Http/Controllers/Api/BannerController.php:66-76 | exactly the active banners, sorted by (supplier id, order) |
| BannerApi.ActiveIsIndexOfActive | app/Http/Controllers/Api/BannerController.php:66-76 | `active` equals `index?is_active=1` |
| BannerApi.BySupplierIsIndexOfActive | app/Http/Controllers/Api/BannerController.php:51-61 | `bySupplier/{id}` equals `index?supplier_id={id}&is_active=1` |
| PublicProducts.Index | app/Http/Controllers/Api/PublicProductController.php:12-29 | exactly the products matching every filter that was sent, each as often as in the table |
| PublicProducts.IndexWithoutParameters | app/Http/Controllers/Api/PublicProductController.php:14-26 | with no parameters, every product, in the order the model's table holds them (the query has no `orderBy`) |
| PublicProducts.IndexIntersectsFilters | app/Http/Controllers/Api/PublicProductController.php:17-24 | both filters give the supplier listing filtered again by category: the intersection, with no match dropped |
| ImagePreview.StepKeepsValid | resources/js/components/image-preview-dialog.tsx:32-87 | every handler keeps the scale within 0.5x–3x and the rotation in {0, 90, 180, 270} |
| ImagePreview.RunKeepsValid | resources/js/components/image-preview-dialog.tsx:26-38 | any sequence of events from a valid state stays valid |
| ImagePreview.InitialIsValid | resources/js/components/image-preview-dialog.tsx:26-27 | the initial scale 1x and rotation 0 are valid |
| ImagePreview.ZoomIsClamped | resources/js/components/image-preview-dialog.tsx:32-38 | zoom in adds a quarter, capped at 3x; zoom out removes one, floored at 0.5x; nothing else changes |
| ImagePreview.FourRotationsAreIdentity | resources/js/components/image-preview-dialog.tsx:40-42 | four rotations restore the state |
| ImagePreview.ResetRestoresView | resources/js/components/image-preview-dialog.tsx:44-48 | reset gives scale 1x, rotation 0 and position (0, 0), leaving the drag state alone |
| ImagePreview.MoveWithoutDragIsIgnored | resources/js/components/image-preview-dialog.tsx:67-78 | a move with no drag in progress changes nothing; mouse-up ends the drag |
| ImagePreview.DragPansByDisplacement | resources/js/components/image-preview-dialog.tsx:59-73 | after a press and some moves, the position is the start position plus the pointer's displacement, so returning to the press point leaves it unchanged |
| ImagePreview.DraggingFollowsPointer | resources/js/components/image-preview-dialog.tsx:67-74 | during a drag each move sets the position to the pointer minus the drag anchor |
| ImagePreview.WheelZooms | resources/js/components/image-preview-dialog.tsx:80-87 | a negative deltaY zooms in; any other zooms out |
| ImagePreview.ImagePreviewDialog.constructor | resources/js/components/image-preview-dialog.tsx:26-30 | starts at scale 1x, rotation 0, position (0, 0), not dragging |
| ImagePreview.ImagePreviewDialog.HandleZoomIn | resources/js/components/image-preview-dialog.tsx:32-34 | the state becomes the zoom-in step of the old state |
| ImagePreview.ImagePreviewDialog.HandleZoomOut | resources/js/components/image-preview-dialog.tsx:36-38 | the state becomes the zoom-out step of the old state |
| ImagePreview.ImagePreviewDialog.HandleRotate | resources/js/components/image-preview-dialog.tsx:40-42 | the state becomes the rotate step of the old state |
| ImagePreview.ImagePreviewDialog.HandleReset | resources/js/components/image-preview-dialog.tsx:44-48 | the state becomes the reset step of the old state |
| ImagePreview.ImagePreviewDialog.HandleMouseDown | resources/js/components/image-preview-dialog.tsx:59-65 | dragging starts, anchored at the pointer minus the position |
| ImagePreview.ImagePreviewDialog.HandleMouseMove | resources/js/components/image-preview-dialog.tsx:67-74 | the state becomes the move step of the old state |
| ImagePreview.ImagePreviewDialog.HandleMouseUp | resources/js/components/image-preview-dialog.tsx:76-78 | dragging ends |
| ImagePreview.ImagePreviewDialog.HandleWheel | resources/js/components/image-preview-dialog.tsx:80-87 | the state becomes the wheel step of the old state |
| DeleteConfirmation.LastConfirmedUrl | resources/js/hooks/use-delete-confirmation.tsx:32-39 | the fallback exactly when no event is a confirm; otherwise the url of a confirm event after which no other confirm follows |
| DeleteConfirmation.DeleteTargetsLastConfirmed | resources/js/hooks/use-delete-confirmation.tsx:32-39 | whatever happened since, the delete targets the url of the most recent `confirmDelete` (empty before any) |
| DeleteConfirmation.DeleteOutcome | resources/js/hooks/use-delete-confirmation.tsx:40-46 | success closes the dialog; failure leaves it exactly as it was; url and name are kept |
| DeleteConfirmation.ConfirmOpens | resources/js/hooks/use-delete-confirmation.tsx:32-36 | confirming opens the dialog with that url and the name, or '' when none is given |
| DeleteConfirmation.DeleteDialog.constructor | resources/js/hooks/use-delete-confirmation.tsx:28-30 | closed, with an empty url and name |
| DeleteConfirmation.DeleteDialog.ConfirmDelete | resources/js/hooks/use-delete-confirmation.tsx:32-36 | the state becomes the confirm step of the old state |
| DeleteConfirmation.DeleteDialog.HandleDelete | resources/js/hooks/use-delete-confirmation.tsx:38-48 | the delete targets the stored url; the state becomes the success or failure step |
| DeleteConfirmation.DeleteDialog.SetOpen | resources/js/hooks/use-delete-confirmation.tsx:51 | only the open flag changes |
| Translations.T | resources/js/translations/index.ts:10-13 | fails exactly when the chosen language is neither a catalogue nor a name every object inherits; returns the key for an inherited name; otherwise returns the key or one of that catalogue's entries |
| Translations.LookupOrKey | resources/js/translations/index.ts:12 | a non-empty entry is returned; a missing or empty entry gives the key |
| Translations.ExplicitLanguageWins | resources/js/translations/index.ts:11 | an explicit language makes the stored one irrelevant |
| Translations.DefaultsToEnglish | resources/js/translations/index.ts:11 | with no argument and nothing stored, English is used, and the lookup succeeds |
| Translations.UseTranslation | resources/js/translations/index.ts:16 | the language read is never empty |
| Translations.UseTranslationIsStoredLookup | resources/js/translations/index.ts:15-19 | the hook's translate function is `t` with the stored language |
| ReorderRoundTrip.EntriesOf | resources/js/pages/banners/index.tsx:142-149 | one entry per posted update, with its id and order |
| ReorderRoundTrip.SavedGroupIsNumberedByPosition | app/Http/Controllers/BannerController.php:90-94 | saving the page's renumbered group gives the banner at position i the order i + 1 |
| ReorderRoundTrip.PostedGroupIsAccepted | app/Http/Controllers/BannerController.php:82-87 | the page's post for an existing supplier and existing banners passes validation as exactly those entries |

## Left out

- Rendering, layout, columns, toasts, navigation and `data-table.tsx`: these
  are UI, with no logic to state.
- `arrayMove` belongs to the drag library. It is modelled as "remove at
  `from`, insert at `to`", with both indices in range. The ids the drag library
  reports are assumed to be ids of the list being dragged (`DragInGroup`, and
  the requires of `SortableDataTable.HandleDragEnd`).
- Persisting the posted reorder: the page's post is a returned value, and the
  request's outcome is a parameter of `ReorderSettled`. The post is issued from
  inside a state updater; a framework that runs that updater twice would send it
  twice, and that is not modelled.
- A failed reorder restores the state as it was before the drag, discarding
  any change made while the request was in flight. The model reproduces this
  as the source does; it does not judge it.
- Banner description, image path and timestamps on the client side: the page
  only displays them; no state change or request depends on them.
- File storage, image upload and deletion of stored images: I/O.
- Transactions and concurrent requests: a single request runs sequentially.
- RequestRules.IntegerValue: leading or trailing whitespace in a numeral is not
  modelled. Neither is a boolean `true` read as 1. The Input datatype has no
  floating-point case, so a JSON number such as `2.0`, which the `integer` rule
  accepts and `exists` matches as the integer 2, is not modelled. The
  "accepted exactly when" contracts of ReorderRequests.ReadEntries and of the
  three ValidateReorder members hold over the modelled inputs only.
- OrderedRows.SetOrder and OrderedRows.ApplyEntriesAt: a query-builder update
  on a model with timestamps also sets `updated_at` on every row it matches
  (banners, galleries and categories all keep timestamps). Rows carry no
  timestamp in the model, so "every other column keeps its value" is about the
  modelled columns only.
- Translations.T: when the chosen language names an inherited member such as
  `constructor`, the source indexes that function object with the key; the
  model returns the key, which holds unless the key is itself a property name
  of that function (`name`, `length`, ...).
- ReorderRequests.ReadOrderList: an associative array (JSON object) sent for
  the list is rejected, whereas the framework would validate its values.
- BannerApi.Index and PublicProducts.Index: a parameter that is not an integer
  matches no row. The database's loose comparison of strings with numbers is
  not modelled.
- BannerApi.BooleanParam: surrounding whitespace is not trimmed.
- PublicProducts.IndexWithoutParameters and PublicProducts.Index: the query
  has no `orderBy`, so the database promises no order for the listing. The
  model returns the products in the order its table holds them; only the
  multiset of the result is what the source promises.
- FormRequests.StoreGalleryErrors, FormRequests.StoreBannerErrors and
  FormRequests.UpdateGalleryErrors: `max:255` is checked on the value as
  sent (RequestRules.StringAtMost). The framework's string-trimming
  middleware, where the application runs it, trims a value first, so a value
  longer than 255 characters only because of surrounding whitespace is
  rejected here but accepted there.
- Ties in a sort: rows with the same (supplier, order) come out in the
  insertion sort's order. The database promises no particular tie order.
- Pagination, eager loading and the JSON resources: serialization only.
- The stored language is read once and passed in. Local storage, the language
  cookie and the page reload on language change are I/O.
- Image preview: floating-point scale is replaced by quarter steps, and the
  transform string is not modelled. The component's handlers read the state of
  the last render; the model applies events one at a time to the current state.
