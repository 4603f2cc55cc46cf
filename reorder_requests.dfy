/**
  The payload the three reorder endpoints accept: a list of `{id, order}`
  entries, validated as a whole before any row is written.
 */
module ReorderRequests {
  import opened Options
  import opened RequestRules
  import opened OrderedRows

  /** What an endpoint answers. */
  datatype Response =
    | ValidationFailed          // the request is sent back with its errors; nothing was written
    | NotFound                  // a route parameter named no existing record
    | RedirectBack              // `back()`
    | Json(message: string)     // a JSON body with a message

  /**
    `list.*.id => required|exists:table,id` and
    `list.*.order => required|integer` plus `min:m` when `min` is given, for one entry.
   */
  predicate EntryValid(entry: Input, existing: set<int>, min: Option<int>)
  {
    var id := FieldOf(entry, "id");
    var order := FieldOf(entry, "order");
    Filled(id) && ExistsIn(id, existing)
    && Filled(order) && IntegerValue(order).Some?
    && (min.None? || IntegerValue(order).value >= min.value)
  }

  /** Every entry passes exactly when its id exists and its order is an integer within the bound. */
  lemma EntriesValidMean(list: Input, existing: set<int>, min: Option<int>)
    ensures list.List? ==>
      ((forall i | 0 <= i < |list.items| :: EntryValid(list.items[i], existing, min)) <==>
       (forall i | 0 <= i < |list.items| ::
         ExistsIn(FieldOf(list.items[i], "id"), existing)
         && IntegerValue(FieldOf(list.items[i], "order")).Some?
         && (min.None? || IntegerValue(FieldOf(list.items[i], "order")).value >= min.value)))
  {
    if list.List? {
      forall i | 0 <= i < |list.items|
        ensures IntegerValue(FieldOf(list.items[i], "id")).Some? ==> Filled(FieldOf(list.items[i], "id"))
        ensures IntegerValue(FieldOf(list.items[i], "order")).Some? ==> Filled(FieldOf(list.items[i], "order"))
      {
        IntegerIsFilled(FieldOf(list.items[i], "id"));
        IntegerIsFilled(FieldOf(list.items[i], "order"));
      }
    }
  }

  /** The entry an accepted item stands for. */
  function EntryOf(entry: Input, existing: set<int>, min: Option<int>): OrderEntry
    requires EntryValid(entry, existing, min)
  {
    OrderEntry(IntegerValue(FieldOf(entry, "id")).value, IntegerValue(FieldOf(entry, "order")).value)
  }

  /** The entries of a list whose every item passes the rules; None when one fails. */
  function ReadEntries(items: seq<Input>, existing: set<int>, min: Option<int>): (r: Option<seq<OrderEntry>>)
    ensures r.Some? <==> forall i | 0 <= i < |items| :: EntryValid(items[i], existing, min)
    ensures r.Some? ==>
      |r.value| == |items| && forall i | 0 <= i < |items| :: r.value[i] == EntryOf(items[i], existing, min)
  {
    if items == [] then Some([])
    else
      var init := items[..|items| - 1];
      var last := items[|items| - 1];
      assert forall i | 0 <= i < |items| - 1 :: init[i] == items[i];
      match ReadEntries(init, existing, min)
      case None => None
      case Some(entries) =>
        if EntryValid(last, existing, min) then Some(entries + [EntryOf(last, existing, min)]) else None
  }

  /** `list => required|array` with the entry rules: the entries, or None when the request fails. */
  function ReadOrderList(list: Input, existing: set<int>, min: Option<int>): (r: Option<seq<OrderEntry>>)
    ensures r.Some? <==>
      list.List? && list.items != [] && forall i | 0 <= i < |list.items| :: EntryValid(list.items[i], existing, min)
    ensures r.Some? ==>
      |r.value| == |list.items| && forall i | 0 <= i < |list.items| :: r.value[i] == EntryOf(list.items[i], existing, min)
  {
    if Filled(list) && list.List? then ReadEntries(list.items, existing, min) else None
  }

  /** The request body the client builds from a list of entries. */
  function Payload(entries: seq<OrderEntry>): (r: Input)
    ensures r.List? && |r.items| == |entries|
  {
    List(seq(|entries|, i requires 0 <= i < |entries| =>
      Record(map["id" := Num(entries[i].id), "order" := Num(entries[i].order)])))
  }

  /** A payload of existing ids and 64-bit orders that meet the bound is read back as the same entries. */
  lemma PayloadRoundTrip(entries: seq<OrderEntry>, existing: set<int>, min: Option<int>)
    requires entries != []
    requires forall i | 0 <= i < |entries| ::
      entries[i].id in existing && PhpIntMin <= entries[i].id <= PhpIntMax
      && PhpIntMin <= entries[i].order <= PhpIntMax
      && (min.None? || entries[i].order >= min.value)
    ensures ReadOrderList(Payload(entries), existing, min) == Some(entries)
  {
    var list := Payload(entries);
    forall i | 0 <= i < |entries|
      ensures EntryValid(list.items[i], existing, min) && EntryOf(list.items[i], existing, min) == entries[i]
    {
      assert FieldOf(list.items[i], "id") == Num(entries[i].id);
      assert FieldOf(list.items[i], "order") == Num(entries[i].order);
    }
    var r := ReadOrderList(list, existing, min);
    assert r.Some?;
    assert r.value == entries;
  }
}
