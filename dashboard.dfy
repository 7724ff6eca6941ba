/** The dashboard page (frontend/src/pages/Dashboard.tsx): the list of items
    it shows and the transitions its handlers make on it. Each handler takes
    what the HTTP client yielded for its request as a `Reply`. */
module Dashboard {
  import opened Wrappers
  import opened ClientTypes
  import opened ItemsApi

  /** `items.map(item => item.id === id ? updated : item)`: same length and
      order, each item with that id replaced, every other one kept. */
  function ReplaceById(items: seq<ClientItem>, id: string, updated: ClientItem): (r: seq<ClientItem>)
    ensures |r| == |items|
    ensures forall i :: 0 <= i < |items| && items[i].id == id ==> r[i] == updated
    ensures forall i :: 0 <= i < |items| && items[i].id != id ==> r[i] == items[i]
  {
    if items == [] then []
    else [if items[0].id == id then updated else items[0]] + ReplaceById(items[1..], id, updated)
  }

  /** `items.filter(item => item.id !== id)`: exactly the items with another id. */
  function RemoveById(items: seq<ClientItem>, id: string): (r: seq<ClientItem>)
    ensures forall x :: x in r <==> x in items && x.id != id
    ensures |r| <= |items|
  {
    if items == [] then []
    else if items[0].id == id then RemoveById(items[1..], id)
    else [items[0]] + RemoveById(items[1..], id)
  }

  /** Removing distributes over concatenation, so the kept items stay in their order. */
  lemma {:induction false} RemoveByIdAppend(a: seq<ClientItem>, b: seq<ClientItem>, id: string)
    ensures RemoveById(a + b, id) == RemoveById(a, id) + RemoveById(b, id)
  {
    if a == [] {
      assert a + b == b;
    } else {
      assert (a + b)[1..] == a[1..] + b;
      RemoveByIdAppend(a[1..], b, id);
    }
  }

  /** Removing an id no item carries changes nothing. */
  lemma {:induction false} RemoveAbsentId(items: seq<ClientItem>, id: string)
    requires forall x :: x in items ==> x.id != id
    ensures RemoveById(items, id) == items
  {
    if items != [] {
      RemoveAbsentId(items[1..], id);
    }
  }

  /** The page's state. */
  class DashboardState {
    var items: seq<ClientItem>
    var loading: bool
    var error: Option<string>
    var formOpen: bool
    var editingItem: Option<ClientItem>

    constructor ()
      ensures items == [] && loading && error.None? && !formOpen && editingItem.None?
    {
      items, loading, error, formOpen, editingItem := [], true, None, false, None;
    }

    /** `fetchItems`: replace the list on success, record the error otherwise;
      either way the page stops loading. */
    method FetchItems(reply: Reply<seq<ClientItem>>)
      modifies this
      ensures !loading
      ensures Unwrap(reply, FetchItemsFallback).Ok? ==>
        items == Unwrap(reply, FetchItemsFallback).value && error.None?
      ensures Unwrap(reply, FetchItemsFallback).Err? ==>
        items == old(items) && error == Some(Unwrap(reply, FetchItemsFallback).error)
      ensures formOpen == old(formOpen) && editingItem == old(editingItem)
    {
      loading := true;
      error := None;
      var result := Unwrap(reply, FetchItemsFallback);
      if result.Ok? {
        items := result.value;
      } else {
        error := Some(result.error);
      }
      loading := false;
    }

    /** `handleCreateItem`: the new item goes first, the others follow in order. */
    method HandleCreateItem(reply: Reply<ClientItem>)
      modifies this`items, this`error
      ensures Unwrap(reply, CreateItemFallback).Ok? ==>
        |items| == |old(items)| + 1 && items[0] == Unwrap(reply, CreateItemFallback).value
        && items[1..] == old(items) && error == old(error)
      ensures Unwrap(reply, CreateItemFallback).Err? ==>
        items == old(items) && error == Some(Unwrap(reply, CreateItemFallback).error)
    {
      var result := Unwrap(reply, CreateItemFallback);
      if result.Ok? {
        items := [result.value] + items;
      } else {
        error := Some(result.error);
      }
    }

    /** `handleUpdateItem`: nothing without an item being edited; on success
      every item with the edited id is replaced and editing ends. */
    method HandleUpdateItem(reply: Reply<ClientItem>)
      modifies this`items, this`error, this`editingItem
      ensures old(editingItem).None? ==>
        items == old(items) && error == old(error) && editingItem.None?
      ensures old(editingItem).Some? && Unwrap(reply, UpdateItemFallback).Ok? ==>
        items == ReplaceById(old(items), old(editingItem).value.id, Unwrap(reply, UpdateItemFallback).value)
        && editingItem.None? && error == old(error)
      ensures old(editingItem).Some? && Unwrap(reply, UpdateItemFallback).Err? ==>
        items == old(items) && editingItem == old(editingItem)
        && error == Some(Unwrap(reply, UpdateItemFallback).error)
    {
      if editingItem.None? {
        return;
      }
      var result := Unwrap(reply, UpdateItemFallback);
      if result.Ok? {
        items := ReplaceById(items, editingItem.value.id, result.value);
        editingItem := None;
      } else {
        error := Some(result.error);
      }
    }

    /** `handleDeleteItem`: on success exactly the items with that id leave the list. */
    method HandleDeleteItem(id: string, reply: Reply<DeleteConfirmation>)
      modifies this`items, this`error
      ensures UnwrapDelete(reply).Ok? ==> items == RemoveById(old(items), id) && error == old(error)
      ensures UnwrapDelete(reply).Err? ==> items == old(items) && error == Some(UnwrapDelete(reply).error)
    {
      var result := UnwrapDelete(reply);
      if result.Ok? {
        items := RemoveById(items, id);
      } else {
        error := Some(result.error);
      }
    }

    /** `handleEditItem`: remember the item and open the form. */
    method HandleEditItem(item: ClientItem)
      modifies this`editingItem, this`formOpen
      ensures editingItem == Some(item) && formOpen
    {
      editingItem := Some(item);
      formOpen := true;
    }

    /** `handleFormClose`: close the form and forget the edited item. */
    method HandleFormClose()
      modifies this`editingItem, this`formOpen
      ensures editingItem.None? && !formOpen
    {
      formOpen := false;
      editingItem := None;
    }
  }
}
