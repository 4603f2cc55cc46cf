/**
  The delete-confirmation hook: a dialog that remembers which URL to delete
  and which item name to show, and closes once the deletion succeeds.
 */
module DeleteConfirmation {
  import opened Options

  datatype DialogState = DialogState(isOpen: bool, deleteUrl: string, itemName: string)

  datatype Event =
    | Confirm(url: string, name: Option<string>)   // `confirmDelete(url, name?)`
    | DeleteSucceeded                              // the DELETE request's success callback
    | DeleteFailed                                 // its error callback
    | OpenChange(open: bool)                       // the dialog opened or dismissed by the user

  const Closed: DialogState := DialogState(false, "", "")

  /** `name || ''` */
  function NameOrEmpty(name: Option<string>): string
  {
    if name.Some? then name.value else ""
  }

  function Step(s: DialogState, e: Event): DialogState
  {
    match e
    case Confirm(url, name) => DialogState(true, url, NameOrEmpty(name))
    case DeleteSucceeded => s.(isOpen := false)
    case DeleteFailed => s
    case OpenChange(open) => s.(isOpen := open)
  }

  function Run(s: DialogState, events: seq<Event>): DialogState
    decreases |events|
  {
    if events == [] then s else Run(Step(s, events[0]), events[1..])
  }

  /** The URL of the most recent `confirmDelete`, `fallback` when there was none. */
  function LastConfirmedUrl(events: seq<Event>, fallback: string): (r: string)
    ensures (forall i | 0 <= i < |events| :: !events[i].Confirm?) ==> r == fallback
    ensures (exists i | 0 <= i < |events| :: events[i].Confirm?) ==>
      exists i | 0 <= i < |events| ::
        events[i].Confirm? && events[i].url == r && forall j | i < j < |events| :: !events[j].Confirm?
  {
    if events == [] then fallback
    else if events[|events| - 1].Confirm? then events[|events| - 1].url
    else
      var r := LastConfirmedUrl(events[..|events| - 1], fallback);
      assert forall i | 0 <= i < |events| - 1 :: events[..|events| - 1][i] == events[i];
      r
  }

  lemma {:induction false} RunSnoc(s: DialogState, events: seq<Event>, e: Event)
    ensures Run(s, events + [e]) == Step(Run(s, events), e)
    decreases |events|
  {
    if events != [] {
      assert (events + [e])[1..] == events[1..] + [e];
      RunSnoc(Step(s, events[0]), events[1..], e);
    }
  }

  /**
    Whatever happened since, the URL `handleDelete` targets is the one passed to
    the most recent `confirmDelete` (the empty string before any).
   */
  lemma {:induction false} DeleteTargetsLastConfirmed(events: seq<Event>)
    ensures Run(Closed, events).deleteUrl == LastConfirmedUrl(events, "")
    decreases |events|
  {
    if events != [] {
      var init := events[..|events| - 1];
      DeleteTargetsLastConfirmed(init);
      assert events == init + [events[|events| - 1]];
      RunSnoc(Closed, init, events[|events| - 1]);
    }
  }

  /** A success closes the dialog; a failure leaves it exactly as it was; neither touches url or name. */
  lemma DeleteOutcome(s: DialogState)
    ensures Step(s, DeleteSucceeded) == DialogState(false, s.deleteUrl, s.itemName)
    ensures Step(s, DeleteFailed) == s
  {
  }

  /** Confirming opens the dialog on that url and name, whatever the state before. */
  lemma ConfirmOpens(s: DialogState, url: string, name: Option<string>)
    ensures Step(s, Confirm(url, name)).isOpen
    ensures Step(s, Confirm(url, name)).deleteUrl == url
    ensures Step(s, Confirm(url, name)).itemName == (if name.Some? then name.value else "")
  {
  }

  /** The hook's three state fields. */
  class DeleteDialog {
    var isOpen: bool
    var deleteUrl: string
    var itemName: string

    function State(): DialogState
      reads this
    {
      DialogState(isOpen, deleteUrl, itemName)
    }

    constructor()
      ensures State() == Closed
    {
      isOpen := false;
      deleteUrl := "";
      itemName := "";
    }

    /** `confirmDelete(url, name?)` */
    method ConfirmDelete(url: string, name: Option<string>)
      modifies this
      ensures State() == Step(old(State()), Confirm(url, name))
    {
      deleteUrl := url;
      itemName := NameOrEmpty(name);
      isOpen := true;
    }

    /**
      `handleDelete`: sends the DELETE to the stored url; `succeeded` is the
      request's outcome, reported through its callbacks.
     */
    method HandleDelete(succeeded: bool) returns (target: string)
      modifies this
      ensures target == old(deleteUrl)
      ensures State() == Step(old(State()), if succeeded then DeleteSucceeded else DeleteFailed)
    {
      target := deleteUrl;
      if succeeded {
        isOpen := false;
      }
    }

    /** `onOpenChange`: the dialog opened or dismissed. */
    method SetOpen(open: bool)
      modifies this
      ensures State() == Step(old(State()), OpenChange(open))
    {
      isOpen := open;
    }
  }
}
