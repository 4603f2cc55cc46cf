/**
  The banner management page: banners arrive from the server sorted by
  (supplier, order), are grouped into one list per supplier, can be reordered
  inside a supplier's list by drag-and-drop (which posts the new 1..N numbering
  to the server and rolls back if that request fails), and can be deleted
  through a confirmation dialog.
 */
module BannersPage {
  import opened Options
  import opened ArrayMoves

  datatype Supplier = Supplier(id: int, name: string)

  /** A banner as the page receives it; description and image path are only displayed and are left out. */
  datatype Banner = Banner(id: int, title: string, supplier: Supplier, isActive: bool, order: int)

  /** One entry of the page's `supplierBanners` record. */
  datatype SupplierGroup = SupplierGroup(supplier: Supplier, banners: seq<Banner>)

  /** The page's `supplierBanners` state, keyed by supplier id. */
  type Groups = map<int, SupplierGroup>

  /** One element of the body posted to the reorder endpoint. */
  datatype OrderUpdate = OrderUpdate(id: int, order: int)

  /** The body of `POST /banners/reorder`. */
  datatype ReorderPost = ReorderPost(supplierId: int, banners: seq<OrderUpdate>)

  /** The delete confirmation dialog's state. */
  datatype DeleteDialog = DeleteDialog(open: bool, id: Option<int>, title: string)

  // ---------------------------------------------------------------------------
  // Grouping

  /** The banners of supplier `sid`, in input order. */
  function OfSupplier(data: seq<Banner>, sid: int): (r: seq<Banner>)
    ensures |r| <= |data|
  {
    if data == [] then []
    else OfSupplier(data[..|data| - 1], sid) + (if data[|data| - 1].supplier.id == sid then [data[|data| - 1]] else [])
  }

  /** The banners whose supplier id lies in `sids`, in input order. */
  function OfSuppliers(data: seq<Banner>, sids: set<int>): seq<Banner>
  {
    if data == [] then []
    else OfSuppliers(data[..|data| - 1], sids) + (if data[|data| - 1].supplier.id in sids then [data[|data| - 1]] else [])
  }

  function SupplierIds(data: seq<Banner>): set<int>
  {
    set b | b in data :: b.supplier.id
  }

  /** `groups` holds, for every supplier present in `data` and no other, that supplier's banners in input order. */
  ghost predicate IsGrouping(data: seq<Banner>, groups: Groups)
  {
    && groups.Keys == SupplierIds(data)
    && forall k | k in groups :: groups[k].banners == OfSupplier(data, k) && groups[k].supplier.id == k
  }

  /** The shape every state of the page keeps: no empty group, and each group holds only its own supplier's banners. */
  ghost predicate WellGrouped(groups: Groups)
  {
    forall k | k in groups ::
      && groups[k].banners != []
      && groups[k].supplier.id == k
      && forall b | b in groups[k].banners :: b.supplier.id == k
  }

  /** Banners ascending by supplier id, then by order: the order the server sends them in. */
  ghost predicate SortedBySupplierThenOrder(data: seq<Banner>)
  {
    forall i, j | 0 <= i < j < |data| ::
      data[i].supplier.id < data[j].supplier.id ||
      (data[i].supplier.id == data[j].supplier.id && data[i].order <= data[j].order)
  }

  ghost predicate AscendingByOrder(banners: seq<Banner>)
  {
    forall i, j | 0 <= i < j < |banners| :: banners[i].order <= banners[j].order
  }

  /**
    The `reduce` that builds the initial `supplierBanners`: the first banner of a
    supplier creates its entry (with that banner's supplier record), every banner
    is pushed onto its supplier's list.
   */
  method GroupBySupplier(data: seq<Banner>) returns (acc: Groups)
    ensures IsGrouping(data, acc)
    ensures forall k | k in acc :: acc[k].banners != [] && acc[k].supplier == acc[k].banners[0].supplier
  {
    acc := map[];
    for i := 0 to |data|
      invariant GroupedPrefix(data[..i], acc)
    {
      var banner := data[i];
      var supplierId := banner.supplier.id;
      ghost var before := acc;
      if supplierId !in acc {
        acc := acc[supplierId := SupplierGroup(banner.supplier, [])];
      }
      acc := acc[supplierId := acc[supplierId].(banners := acc[supplierId].banners + [banner])];
      assert acc == Pushed(before, banner);
      GroupedPrefixStep(data[..i], banner, before);
      assert data[..i + 1] == data[..i] + [banner];
    }
    assert data[..|data|] == data;
    GroupedPrefixIsGrouping(data, acc);
  }

  /** The loop invariant of GroupBySupplier: `acc` groups the banners seen so far. */
  ghost predicate GroupedPrefix(seen: seq<Banner>, acc: Groups)
  {
    && acc.Keys == SupplierIds(seen)
    && (forall k | k in acc ::
          && acc[k].banners == OfSupplier(seen, k)
          && acc[k].banners != []
          && acc[k].supplier == acc[k].banners[0].supplier
          && acc[k].supplier.id == k)
    && (forall k | k !in acc :: OfSupplier(seen, k) == [])
  }

  lemma GroupedPrefixIsGrouping(data: seq<Banner>, acc: Groups)
    requires GroupedPrefix(data, acc)
    ensures IsGrouping(data, acc)
    ensures forall k | k in acc :: acc[k].banners != [] && acc[k].supplier == acc[k].banners[0].supplier
  {
  }

  /** One step of the `reduce`: create the supplier's entry if needed, then push the banner. */
  function Pushed(acc: Groups, banner: Banner): Groups
  {
    var sid := banner.supplier.id;
    var entry := if sid in acc then acc[sid] else SupplierGroup(banner.supplier, []);
    acc[sid := entry.(banners := entry.banners + [banner])]
  }

  lemma GroupedPrefixStep(seen: seq<Banner>, banner: Banner, before: Groups)
    requires GroupedPrefix(seen, before)
    ensures GroupedPrefix(seen + [banner], Pushed(before, banner))
  {
    var next := seen + [banner];
    assert next[..|next| - 1] == seen;
    assert SupplierIds(next) == SupplierIds(seen) + {banner.supplier.id} by {
      forall b ensures b in next <==> b in seen || b == banner { }
    }
    var after := Pushed(before, banner);
    forall k | k in after
      ensures after[k].banners == OfSupplier(next, k) && after[k].banners != []
      ensures after[k].supplier == after[k].banners[0].supplier && after[k].supplier.id == k
    {
      if k == banner.supplier.id && k in before {
        assert after[k].banners[0] == before[k].banners[0];
      }
    }
  }

  /** A supplier's selection holds exactly the input's banners of that supplier. */
  lemma {:induction false} OfSupplierMembers(data: seq<Banner>, sid: int, b: Banner)
    ensures b in OfSupplier(data, sid) <==> b in data && b.supplier.id == sid
  {
    if data != [] {
      OfSupplierMembers(data[..|data| - 1], sid, b);
      assert data == data[..|data| - 1] + [data[|data| - 1]];
    }
  }

  /**
    Every banner of the input lies in exactly one group, the one keyed by its
    supplier id, and every group holds only banners of its own supplier.
   */
  lemma GroupingPlacesEachBannerOnce(data: seq<Banner>, groups: Groups, b: Banner)
    requires IsGrouping(data, groups)
    ensures b in data ==> b.supplier.id in groups && b in groups[b.supplier.id].banners
    ensures forall k | k in groups :: b in groups[k].banners <==> b in data && b.supplier.id == k
  {
    forall k | k in groups ensures b in groups[k].banners <==> b in data && b.supplier.id == k {
      OfSupplierMembers(data, k, b);
    }
    if b in data {
      assert b.supplier.id in SupplierIds(data);
      OfSupplierMembers(data, b.supplier.id, b);
    }
  }

  lemma GroupingIsWellGrouped(data: seq<Banner>, groups: Groups)
    requires IsGrouping(data, groups)
    ensures WellGrouped(groups)
  {
    forall k | k in groups
      ensures groups[k].banners != [] && forall b | b in groups[k].banners :: b.supplier.id == k
    {
      var b :| b in data && b.supplier.id == k;
      OfSupplierMembers(data, k, b);
      forall c | c in groups[k].banners ensures c.supplier.id == k {
        OfSupplierMembers(data, k, c);
      }
    }
  }

  /** The lists of the groups `keys`, one after the other. */
  function Flatten(groups: Groups, keys: seq<int>): seq<Banner>
    requires forall i | 0 <= i < |keys| :: keys[i] in groups
  {
    if keys == [] then [] else Flatten(groups, keys[..|keys| - 1]) + groups[keys[|keys| - 1]].banners
  }

  lemma {:induction false} OfSuppliersSplit(data: seq<Banner>, sids: set<int>, k: int)
    requires k !in sids
    ensures multiset(OfSuppliers(data, sids + {k})) == multiset(OfSuppliers(data, sids)) + multiset(OfSupplier(data, k))
  {
    if data != [] {
      OfSuppliersSplit(data[..|data| - 1], sids, k);
    }
  }

  lemma {:induction false} OfSuppliersAll(data: seq<Banner>, sids: set<int>)
    requires SupplierIds(data) <= sids
    ensures OfSuppliers(data, sids) == data
  {
    if data != [] {
      var init := data[..|data| - 1];
      assert data == init + [data[|data| - 1]];
      assert SupplierIds(init) <= SupplierIds(data);
      OfSuppliersAll(init, sids);
    }
  }

  lemma {:induction false} FlattenIsOfSuppliers(data: seq<Banner>, groups: Groups, keys: seq<int>)
    requires IsGrouping(data, groups)
    requires forall i | 0 <= i < |keys| :: keys[i] in groups
    requires forall i, j | 0 <= i < j < |keys| :: keys[i] != keys[j]
    ensures multiset(Flatten(groups, keys)) == multiset(OfSuppliers(data, set k | k in keys))
  {
    if keys == [] {
      assert (set k | k in keys) == {};
      OfSuppliersNone(data);
    } else {
      var init, last := keys[..|keys| - 1], keys[|keys| - 1];
      FlattenIsOfSuppliers(data, groups, init);
      assert (set k | k in keys) == (set k | k in init) + {last};
      OfSuppliersSplit(data, (set k | k in init), last);
    }
  }

  lemma {:induction false} OfSuppliersNone(data: seq<Banner>)
    ensures OfSuppliers(data, {}) == []
  {
    if data != [] {
      OfSuppliersNone(data[..|data| - 1]);
    }
  }

  /**
    Grouping partitions the input: reading the groups one after another, in any
    order of their keys, gives back exactly the input banners (so the total count
    is the input count).
   */
  lemma GroupingPartitionsInput(data: seq<Banner>, groups: Groups, keys: seq<int>)
    requires IsGrouping(data, groups)
    requires (set k | k in keys) == groups.Keys
    requires forall i, j | 0 <= i < j < |keys| :: keys[i] != keys[j]
    ensures multiset(Flatten(groups, keys)) == multiset(data)
    ensures |Flatten(groups, keys)| == |data|
  {
    FlattenIsOfSuppliers(data, groups, keys);
    OfSuppliersAll(data, groups.Keys);
    assert |multiset(Flatten(groups, keys))| == |multiset(data)|;
  }

  /** Grouping keeps input order, so input sorted by (supplier, order) gives groups ascending by order. */
  lemma {:induction false} GroupAscendingByOrder(data: seq<Banner>, sid: int)
    requires SortedBySupplierThenOrder(data)
    ensures AscendingByOrder(OfSupplier(data, sid))
  {
    if data != [] {
      var init, last := data[..|data| - 1], data[|data| - 1];
      GroupAscendingByOrder(init, sid);
      if last.supplier.id == sid {
        forall b | b in OfSupplier(init, sid) ensures b.order <= last.order {
          OfSupplierMembers(init, sid, b);
          var i :| 0 <= i < |init| && init[i] == b;
          assert data[i] == b;
        }
      }
    }
  }

  // ---------------------------------------------------------------------------
  // Drag and drop

  function Ids(banners: seq<Banner>): (r: seq<int>)
    ensures |r| == |banners| && forall i :: 0 <= i < |banners| ==> r[i] == banners[i].id
  {
    seq(|banners|, i requires 0 <= i < |banners| => banners[i].id)
  }

  /** The updates posted after a drag: each banner's 1-based position in the new list. */
  function Renumbered(banners: seq<Banner>): (r: seq<OrderUpdate>)
    ensures |r| == |banners|
    ensures forall i :: 0 <= i < |r| ==> r[i].id == banners[i].id && r[i].order == i + 1
  {
    seq(|banners|, i requires 0 <= i < |banners| => OrderUpdate(banners[i].id, i + 1))
  }

  /** A drag can only start and end on banners of the list it belongs to. */
  ghost predicate DragInGroup(groups: Groups, supplierId: int, active: int, over: Option<int>)
  {
    over.Some? && over.value != active ==>
      && supplierId in groups
      && active in Ids(groups[supplierId].banners)
      && over.value in Ids(groups[supplierId].banners)
  }

  /** The new state and the posted body computed by the state updater of `handleDragEnd`. */
  function Dragged(prev: Groups, supplierId: int, active: int, over: Option<int>): (Groups, Option<ReorderPost>)
    requires DragInGroup(prev, supplierId, active, over)
  {
    if over.None? || active == over.value then (prev, None)
    else
      var items := prev[supplierId].banners;
      var newItems := ArrayMove(items, FindIndex(Ids(items), active), FindIndex(Ids(items), over.value));
      (prev[supplierId := prev[supplierId].(banners := newItems)], Some(ReorderPost(supplierId, Renumbered(newItems))))
  }

  /**
    What a drag does: nothing (and no request) without a target or onto itself;
    otherwise only the dragged supplier's list changes, to a permutation of itself
    with the dragged banner at the target's index, and the request numbers that
    new list 1..N, one entry per banner of that supplier.
   */
  lemma {:induction false} DragChangesOnlyItsGroup(prev: Groups, supplierId: int, active: int, over: Option<int>)
    requires DragInGroup(prev, supplierId, active, over)
    ensures var (next, post) := Dragged(prev, supplierId, active, over);
      && (over.None? || over.value == active ==> next == prev && post.None?)
      && (over.Some? && over.value != active ==>
        var items := prev[supplierId].banners;
        var newItems := next[supplierId].banners;
        && next.Keys == prev.Keys
        && (forall k | k in prev && k != supplierId :: next[k] == prev[k])
        && next[supplierId].supplier == prev[supplierId].supplier
        && multiset(newItems) == multiset(items)
        && newItems[FindIndex(Ids(items), over.value)].id == active
        && post == Some(ReorderPost(supplierId, Renumbered(newItems)))
        && multiset(Ids(newItems)) == multiset(Ids(items)))
  {
    if over.Some? && over.value != active {
      var items := prev[supplierId].banners;
      var from, to := FindIndex(Ids(items), active), FindIndex(Ids(items), over.value);
      var newItems := ArrayMove(items, from, to);
      ArrayMoveIsPermutation(items, from, to);
      ArrayMoveIsPermutation(Ids(items), from, to);
      assert Ids(newItems) == ArrayMove(Ids(items), from, to) by {
        forall j | 0 <= j < |newItems| ensures Ids(newItems)[j] == ArrayMove(Ids(items), from, to)[j] {
          ArrayMoveAt(items, from, to, j);
          ArrayMoveAt(Ids(items), from, to, j);
        }
      }
    }
  }

  lemma {:induction false} DragKeepsWellGrouped(prev: Groups, supplierId: int, active: int, over: Option<int>)
    requires WellGrouped(prev)
    requires DragInGroup(prev, supplierId, active, over)
    ensures WellGrouped(Dragged(prev, supplierId, active, over).0)
  {
    if over.Some? && over.value != active {
      DragChangesOnlyItsGroup(prev, supplierId, active, over);
      var next := Dragged(prev, supplierId, active, over).0;
      var items, newItems := prev[supplierId].banners, next[supplierId].banners;
      forall b | b in newItems ensures b in items {
        assert b in multiset(newItems);
      }
      assert |newItems| == |items|;
    }
  }

  // ---------------------------------------------------------------------------
  // Deleting a banner

  /** The list without the banners whose id is `id` (the `filter` in the success callback). */
  function Without(banners: seq<Banner>, id: int): (r: seq<Banner>)
    ensures |r| <= |banners|
  {
    if banners == [] then []
    else Without(banners[..|banners| - 1], id) + (if banners[|banners| - 1].id != id then [banners[|banners| - 1]] else [])
  }

  /** A group after the filter: replaced only when the filter removed something. */
  function GroupAfterDelete(g: SupplierGroup, id: int): SupplierGroup
  {
    var filtered := Without(g.banners, id);
    if |filtered| != |g.banners| then g.(banners := filtered) else g
  }

  /** The filter emptied a group that held the deleted banner, so the group is dropped. */
  predicate GroupEmptiedBy(g: SupplierGroup, id: int)
  {
    var filtered := Without(g.banners, id);
    |filtered| != |g.banners| && |filtered| == 0
  }

  /** The state after a successful delete of banner `id`. */
  ghost function AfterDelete(groups: Groups, id: int): Groups
  {
    map k | k in groups && !GroupEmptiedBy(groups[k], id) :: GroupAfterDelete(groups[k], id)
  }

  /** The success callback's `forEach` over a copy of the state. */
  method RemoveBanner(groups: Groups, id: int) returns (newState: Groups)
    ensures newState == AfterDelete(groups, id)
  {
    newState := groups;
    var pending := groups.Keys;
    while pending != {}
      invariant DeletedOutside(groups, id, pending, newState)
      decreases pending
    {
      // The lemma's result is not used: the call only puts a member of
      // `pending` in scope so that the `:|` below has a witness.
      ghost var someKey := SomeKey(pending);
      var supplierId :| supplierId in pending;
      ghost var before := newState;
      var supplierData := newState[supplierId];
      var filteredBanners := Without(supplierData.banners, id);
      if |filteredBanners| != |supplierData.banners| {
        if |filteredBanners| == 0 {
          newState := newState - {supplierId};
        } else {
          newState := newState[supplierId := supplierData.(banners := filteredBanners)];
        }
      }
      DeletedOutsideStep(groups, id, pending, before, supplierId, newState);
      pending := pending - {supplierId};
    }
    DeletedEverywhere(groups, id, newState);
  }

  /** A non-empty set of keys has a member (the witness the loop's `:|` needs). */
  lemma SomeKey(keys: set<int>) returns (k: int)
    requires keys != {}
    ensures k in keys
  {
    if forall j :: j !in keys {
      assert false;
    }
    k :| k in keys;
  }

  /** The loop invariant of RemoveBanner: the keys already visited are done, the others untouched. */
  ghost predicate DeletedOutside(groups: Groups, id: int, pending: set<int>, state: Groups)
  {
    && pending <= groups.Keys
    && state.Keys <= groups.Keys
    && (forall k | k in pending :: k in state && state[k] == groups[k])
    && (forall k | k in groups && k !in pending ::
         (k in state <==> !GroupEmptiedBy(groups[k], id)) &&
         (k in state ==> state[k] == GroupAfterDelete(groups[k], id)))
  }

  lemma DeletedOutsideStep(groups: Groups, id: int, pending: set<int>, before: Groups, k: int, after: Groups)
    requires DeletedOutside(groups, id, pending, before)
    requires k in pending
    requires var filtered := Without(before[k].banners, id);
      after == if |filtered| == |before[k].banners| then before
               else if |filtered| == 0 then before - {k}
               else before[k := before[k].(banners := filtered)]
    ensures DeletedOutside(groups, id, pending - {k}, after)
  {
  }

  lemma DeletedEverywhere(groups: Groups, id: int, state: Groups)
    requires DeletedOutside(groups, id, {}, state)
    ensures state == AfterDelete(groups, id)
  {
    var expected := AfterDelete(groups, id);
    forall k ensures k in state <==> k in expected {
      if k in groups {
        assert k in state <==> !GroupEmptiedBy(groups[k], id);
      }
    }
    assert state.Keys == expected.Keys;
    forall k | k in state ensures state[k] == expected[k] {
    }
  }

  lemma {:induction false} WithoutMembers(banners: seq<Banner>, id: int, b: Banner)
    ensures b in Without(banners, id) <==> b in banners && b.id != id
  {
    if banners != [] {
      WithoutMembers(banners[..|banners| - 1], id, b);
      assert banners == banners[..|banners| - 1] + [banners[|banners| - 1]];
    }
  }

  lemma {:induction false} WithoutUnchanged(banners: seq<Banner>, id: int)
    requires |Without(banners, id)| == |banners|
    ensures Without(banners, id) == banners
  {
    if banners != [] {
      var init := banners[..|banners| - 1];
      assert |Without(init, id)| <= |init|;
      WithoutUnchanged(init, id);
      assert banners == init + [banners[|banners| - 1]];
    }
  }

  lemma {:induction false} WithoutNone(banners: seq<Banner>, id: int)
    requires forall b | b in banners :: b.id != id
    ensures Without(banners, id) == banners
  {
    if banners != [] {
      var init := banners[..|banners| - 1];
      WithoutNone(init, id);
      assert banners == init + [banners[|banners| - 1]];
    }
  }

  lemma {:induction false} WithoutAll(banners: seq<Banner>, id: int)
    requires forall b | b in banners :: b.id == id
    ensures Without(banners, id) == []
  {
    if banners != [] {
      WithoutAll(banners[..|banners| - 1], id);
    }
  }

  /** What the filter does to one group. */
  lemma GroupAfterDeleteFacts(g: SupplierGroup, id: int)
    ensures GroupAfterDelete(g, id).banners == Without(g.banners, id)
    ensures GroupAfterDelete(g, id).supplier == g.supplier
    ensures forall b :: b in GroupAfterDelete(g, id).banners <==> b in g.banners && b.id != id
    ensures GroupEmptiedBy(g, id) <==> g.banners != [] && forall b | b in g.banners :: b.id == id
    ensures (forall b | b in g.banners :: b.id != id) ==> GroupAfterDelete(g, id) == g && !GroupEmptiedBy(g, id)
  {
    var bs := g.banners;
    var filtered := Without(bs, id);
    forall b ensures b in filtered <==> b in bs && b.id != id {
      WithoutMembers(bs, id, b);
    }
    if |filtered| == |bs| {
      WithoutUnchanged(bs, id);
    }
    if forall b | b in bs :: b.id == id {
      WithoutAll(bs, id);
    }
    if forall b | b in bs :: b.id != id {
      WithoutNone(bs, id);
    }
  }

  /**
    A successful delete removes exactly the banners with that id: every other
    banner stays in its group, groups not holding it are untouched, and a group
    disappears exactly when it held nothing else.
   */
  lemma DeleteRemovesOnlyThatBanner(groups: Groups, id: int)
    ensures AfterDelete(groups, id).Keys <= groups.Keys
    ensures forall k | k in AfterDelete(groups, id) ::
      AfterDelete(groups, id)[k].banners == Without(groups[k].banners, id) &&
      AfterDelete(groups, id)[k].supplier == groups[k].supplier
    ensures forall k | k in groups :: k !in AfterDelete(groups, id) <==>
      groups[k].banners != [] && forall b | b in groups[k].banners :: b.id == id
    ensures forall k, b | k in AfterDelete(groups, id) ::
      b in AfterDelete(groups, id)[k].banners <==> b in groups[k].banners && b.id != id
    ensures forall k | k in groups && (forall b | b in groups[k].banners :: b.id != id) ::
      k in AfterDelete(groups, id) && AfterDelete(groups, id)[k] == groups[k]
  {
    forall k | k in groups {
      GroupAfterDeleteFacts(groups[k], id);
    }
  }

  lemma DeleteKeepsWellGrouped(groups: Groups, id: int)
    requires WellGrouped(groups)
    ensures WellGrouped(AfterDelete(groups, id))
  {
    var after := AfterDelete(groups, id);
    forall k | k in after ensures after[k].banners != [] && after[k].supplier.id == k
      && forall b | b in after[k].banners :: b.supplier.id == k
    {
      var g := groups[k];
      GroupAfterDeleteFacts(g, id);
      var filtered := Without(g.banners, id);
      assert |filtered| != |g.banners| ==> |filtered| != 0;
    }
  }

  lemma {:induction false} OfSupplierWithout(data: seq<Banner>, sid: int, id: int)
    ensures OfSupplier(Without(data, id), sid) == Without(OfSupplier(data, sid), id)
  {
    if data != [] {
      var init, last := data[..|data| - 1], data[|data| - 1];
      OfSupplierWithout(init, sid, id);
      var w := Without(init, id);
      var g := OfSupplier(init, sid);
      assert Without(data, id) == w + (if last.id != id then [last] else []);
      assert OfSupplier(data, sid) == g + (if last.supplier.id == sid then [last] else []);
      if last.id != id && last.supplier.id == sid {
        assert (w + [last])[..|w|] == w;
        assert (g + [last])[..|g|] == g;
        assert OfSupplier(w + [last], sid) == OfSupplier(w, sid) + [last];
        assert Without(g + [last], id) == Without(g, id) + [last];
      } else if last.id != id {
        assert (w + [last])[..|w|] == w;
        assert OfSupplier(w + [last], sid) == OfSupplier(w, sid);
        assert OfSupplier(data, sid) == g;
      } else if last.supplier.id == sid {
        assert (g + [last])[..|g|] == g;
        assert Without(g + [last], id) == Without(g, id);
        assert Without(data, id) == w;
      } else {
        assert Without(data, id) == w;
        assert OfSupplier(data, sid) == g;
      }
    }
  }

  /** Deleting locally agrees with regrouping the server's list without that banner. */
  lemma DeleteCommutesWithGrouping(data: seq<Banner>, groups: Groups, id: int)
    requires IsGrouping(data, groups)
    ensures IsGrouping(Without(data, id), AfterDelete(groups, id))
  {
    var rest := Without(data, id);
    var after := AfterDelete(groups, id);
    DeleteRemovesOnlyThatBanner(groups, id);
    forall k | k in after ensures after[k].banners == OfSupplier(rest, k) && after[k].supplier.id == k {
      OfSupplierWithout(data, k, id);
    }
    forall k ensures k in after <==> k in SupplierIds(rest) {
      if k in after {
        GroupAfterDeleteFacts(groups[k], id);
        assert after[k].banners != [] by {
          var filtered := Without(groups[k].banners, id);
          GroupingIsWellGrouped(data, groups);
          assert |filtered| != |groups[k].banners| ==> |filtered| != 0;
        }
        var b := after[k].banners[0];
        OfSupplierWithout(data, k, id);
        OfSupplierMembers(rest, k, b);
      }
      if k in SupplierIds(rest) {
        var b :| b in rest && b.supplier.id == k;
        WithoutMembers(data, id, b);
        GroupingPlacesEachBannerOnce(data, groups, b);
      }
    }
  }

  /** `confirmDelete` does nothing when the dialog holds no id or the falsy id 0. */
  predicate HasDeleteTarget(dialog: DeleteDialog)
  {
    dialog.id.Some? && dialog.id.value != 0
  }

  // ---------------------------------------------------------------------------
  // The page's state

  /** A reorder request in flight, with the state it rolls back to if it fails. */
  datatype PendingReorder = PendingReorder(post: ReorderPost, rollback: Groups)

  const ClosedDialog := DeleteDialog(false, None, "")

  class BannersIndex {
    var supplierBanners: Groups
    var deleteDialog: DeleteDialog

    ghost predicate Valid()
      reads this
    {
      WellGrouped(supplierBanners)
    }

    /** Mounting the page with the server's list. */
    constructor (data: seq<Banner>)
      ensures Valid()
      ensures IsGrouping(data, supplierBanners)
      ensures deleteDialog == ClosedDialog
    {
      var grouped := GroupBySupplier(data);
      GroupingIsWellGrouped(data, grouped);
      supplierBanners := grouped;
      deleteDialog := ClosedDialog;
    }

    /** `handleDragEnd(supplierId)` applied to a drag-end event. */
    method HandleDragEnd(supplierId: int, active: int, over: Option<int>) returns (pending: Option<PendingReorder>)
      requires Valid()
      requires DragInGroup(supplierBanners, supplierId, active, over)
      modifies this
      ensures Valid()
      ensures supplierBanners == Dragged(old(supplierBanners), supplierId, active, over).0
      ensures pending.None? <==> over.None? || over.value == active
      ensures pending.Some? ==>
        && Some(pending.value.post) == Dragged(old(supplierBanners), supplierId, active, over).1
        && pending.value.rollback == old(supplierBanners)
      ensures deleteDialog == old(deleteDialog)
    {
      DragKeepsWellGrouped(supplierBanners, supplierId, active, over);
      if over.Some? && active != over.value {
        var prev := supplierBanners;
        var (next, post) := Dragged(prev, supplierId, active, over);
        supplierBanners := next;
        pending := Some(PendingReorder(post.value, prev));
      } else {
        pending := None;
      }
    }

    /** The reorder request's outcome: success keeps the state, failure restores the pre-drag state. */
    method ReorderSettled(pending: PendingReorder, succeeded: bool)
      requires Valid()
      requires WellGrouped(pending.rollback)
      modifies this
      ensures Valid()
      ensures supplierBanners == if succeeded then old(supplierBanners) else pending.rollback
      ensures deleteDialog == old(deleteDialog)
    {
      if !succeeded {
        supplierBanners := pending.rollback;
      }
    }

    /** `handleDelete(id, title)`: opens the dialog for that banner. */
    method HandleDelete(id: int, title: string)
      modifies this
      ensures deleteDialog == DeleteDialog(true, Some(id), title)
      ensures supplierBanners == old(supplierBanners)
    {
      deleteDialog := DeleteDialog(true, Some(id), title);
    }

    /** The dialog's cancel button. */
    method CancelDelete()
      modifies this
      ensures deleteDialog == ClosedDialog
      ensures supplierBanners == old(supplierBanners)
    {
      deleteDialog := ClosedDialog;
    }

    /** The dialog opened or dismissed by the user: only `open` changes, id and title stay. */
    method SetDialogOpen(open: bool)
      modifies this
      ensures deleteDialog == old(deleteDialog).(open := open)
      ensures supplierBanners == old(supplierBanners)
    {
      deleteDialog := deleteDialog.(open := open);
    }

    /**
      `confirmDelete`, with the outcome of `DELETE /banners/{id}` as a parameter.
      Returns the id the request was sent for, or None when none was sent.
     */
    method ConfirmDelete(succeeded: bool) returns (sent: Option<int>)
      requires Valid()
      modifies this
      ensures Valid()
      ensures !HasDeleteTarget(old(deleteDialog)) ==>
        sent.None? && supplierBanners == old(supplierBanners) && deleteDialog == old(deleteDialog)
      ensures HasDeleteTarget(old(deleteDialog)) ==>
        && sent == old(deleteDialog).id
        && deleteDialog == ClosedDialog
        && supplierBanners == if succeeded then AfterDelete(old(supplierBanners), sent.value) else old(supplierBanners)
    {
      if !HasDeleteTarget(deleteDialog) {
        sent := None;
        return;
      }
      var id := deleteDialog.id.value;
      sent := Some(id);
      if succeeded {
        DeleteKeepsWellGrouped(supplierBanners, id);
        supplierBanners := RemoveBanner(supplierBanners, id);
      }
      deleteDialog := ClosedDialog;
    }
  }
}
