/**
  The banner page's reorder request as the banner controller receives it:
  the renumbered group the page posts is accepted and saved as positions
  1..N of that supplier's banners.
 */
module ReorderRoundTrip {
  import opened Options
  import opened RequestRules
  import opened OrderedRows
  import opened ReorderRequests
  import opened BannersPage
  import opened BannerController

  /** The `{id, order}` entries of a posted list of updates. */
  function EntriesOf(updates: seq<OrderUpdate>): (r: seq<OrderEntry>)
    ensures |r| == |updates|
    ensures forall i | 0 <= i < |r| :: r[i].id == updates[i].id && r[i].order == updates[i].order
  {
    seq(|updates|, i requires 0 <= i < |updates| => OrderEntry(updates[i].id, updates[i].order))
  }

  predicate DistinctIds(entries: seq<OrderEntry>)
  {
    forall i, j | 0 <= i < j < |entries| :: entries[i].id != entries[j].id
  }

  /** With distinct ids, the last entry for an id is its only one. */
  lemma {:induction false} LastOrderOfDistinct(entries: seq<OrderEntry>, i: int)
    requires DistinctIds(entries) && 0 <= i < |entries|
    ensures LastOrder(entries, entries[i].id) == Some(entries[i].order)
  {
    if i < |entries| - 1 {
      var init := entries[..|entries| - 1];
      assert forall a, b | 0 <= a < b < |init| :: init[a] == entries[a] && init[b] == entries[b];
      LastOrderOfDistinct(init, i);
    }
  }

  /**
    Saving a group the page renumbered gives its banner at position i the
    order i + 1, provided the group's banners have distinct ids.
   */
  lemma SavedGroupIsNumberedByPosition(rows: seq<BannerRow>, supplierId: int, banners: seq<Banner>, i: int, k: int)
    requires forall a, b | 0 <= a < b < |banners| :: banners[a].id != banners[b].id
    requires 0 <= i < |banners| && 0 <= k < |rows|
    requires rows[k].id == banners[i].id && rows[k].parent == supplierId
    ensures ApplyEntries(rows, EntriesOf(Renumbered(banners)), Some(supplierId))[k] == rows[k].(order := i + 1)
  {
    var entries := EntriesOf(Renumbered(banners));
    LastOrderOfDistinct(entries, i);
    ApplyEntriesAt(rows, entries, Some(supplierId), k);
  }

  /**
    The list the page posts passes the controller's rules whenever its banners
    exist and the supplier does.
   */
  lemma PostedGroupIsAccepted(supplierId: int, banners: seq<Banner>, supplierIds: set<int>, bannerIds: set<int>)
    requires banners != [] && |banners| <= PhpIntMax
    requires supplierId in supplierIds && PhpIntMin <= supplierId <= PhpIntMax
    requires forall i | 0 <= i < |banners| :: banners[i].id in bannerIds && PhpIntMin <= banners[i].id <= PhpIntMax
    ensures var entries := EntriesOf(Renumbered(banners));
      var request := map["supplier_id" := Num(supplierId), "banners" := Payload(entries)];
      ValidateReorder(request, supplierIds, bannerIds) == Some(BannerReorder(supplierId, entries))
  {
    var entries := EntriesOf(Renumbered(banners));
    PayloadRoundTrip(entries, bannerIds, Some(1));
    var request := map["supplier_id" := Num(supplierId), "banners" := Payload(entries)];
    assert Get(request, "supplier_id") == Num(supplierId);
    assert Get(request, "banners") == Payload(entries);
  }
}
