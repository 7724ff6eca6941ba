/** The request handlers (backend/src/handlers/items.js). Each request runs
    atomically against the table: parse, identify the caller, look up,
    check existence (404), check ownership (403), then validate or act.
    The caller's verified claim `sub`, the fresh id, the clock readings and
    whether a store call throws are inputs. */
module ItemHandlers {
  import opened Wrappers
  import opened JsText
  import opened ItemModel
  import opened Store
  import opened Envelope

  const NotFoundMessage := "Item not found"
  const UnauthorizedMessage := "Unauthorized"
  const InternalMessage := "Internal server error"
  const DeletedMessage := "Item deleted successfully"

  /** Which store call, if any, throws during the request. */
  datatype Fault = NoFault | ReadFault | WriteFault

  /** The body of a successful delete: `{message}`. */
  datatype Deleted = Deleted(message: string)

  /** The outcome of the existence check followed by the ownership check. */
  datatype Access = Missing | Foreign | Owned(record: Record)

  /** Existence first, then ownership: a missing id is Missing whoever asks;
      a present record is Foreign unless its `userId` is the caller's. */
  function Authorize(t: Table, id: string, caller: string): (a: Access)
    ensures a == Missing <==> id !in t
    ensures a == Foreign <==> id in t && t[id].userId != Some(caller)
    ensures a.Owned? <==> id in t && t[id].userId == Some(caller)
    ensures a.Owned? ==> a.record == t[id]
  {
    if id !in t then Missing
    else if t[id].userId != Some(caller) then Foreign
    else Owned(t[id])
  }

  /** The 404 or 403 response for a refused access. */
  function Refusal<T>(a: Access): (r: Response<T>)
    requires !a.Owned?
    ensures a == Missing ==> r == Error(NotFoundMessage, Some(404))
    ensures a == Foreign ==> r == Error(UnauthorizedMessage, Some(403))
  {
    if a == Missing then Error(NotFoundMessage, Some(404)) else Error(UnauthorizedMessage, Some(403))
  }

  /** The response every handler's `catch` gives for a thrown fault. */
  function Internal<T>(): (r: Response<T>)
    ensures r.statusCode == 500 && !r.body.success
    ensures r.body.error == Some(InternalMessage) && r.body.data.None?
    ensures r.headers == CorsHeaders
  {
    Error(InternalMessage, Some(500))
  }

  /** `{...body, userId}`: the body's attributes with `userId` taken from the claim. */
  function Claimed(body: ItemData, caller: string): (d: ItemData)
    ensures d.userId == Some(caller)
    ensures d.id == body.id && d.name == body.name && d.description == body.description
    ensures d.createdAt == body.createdAt && d.updatedAt == body.updatedAt
  {
    body.(userId := Some(caller))
  }

  /** The record create stores for a body and a caller: `new Item({...body, userId}).toJSON()`. */
  function CreatedRecord(body: ItemData, caller: string, freshId: string, clockCreated: string, clockUpdated: string): (r: Record)
    ensures r.userId == Some(caller)
    ensures r.id == OrElse(body.id, freshId)
    ensures r.createdAt == OrElse(body.createdAt, clockCreated)
    ensures r.updatedAt == OrElse(body.updatedAt, clockUpdated)
    ensures r.name == body.name && r.description == body.description
  {
    Build(Claimed(body, caller), freshId, clockCreated, clockUpdated)
  }

  /** The `userId` a body carries has no effect on the record create builds:
      whatever it holds, or if it is absent, the record is the same one, owned
      by the caller. */
  lemma CreatedRecordIgnoresBodyUserId(body: ItemData, claimed: Option<string>, caller: string, freshId: string, clockCreated: string, clockUpdated: string)
    ensures CreatedRecord(body.(userId := claimed), caller, freshId, clockCreated, clockUpdated)
         == CreatedRecord(body, caller, freshId, clockCreated, clockUpdated)
  {
  }

  /** With no id in the body and an unused fresh id, create adds one key and
      leaves every stored record as it was. */
  lemma CreateWithFreshIdAddsOneKey(t: Table, body: ItemData, caller: string, freshId: string, clockCreated: string, clockUpdated: string)
    requires body.id.None? || body.id == Some("")
    requires freshId !in t
    ensures var r := CreatedRecord(body, caller, freshId, clockCreated, clockUpdated);
      r.id == freshId && Put(t, r).Keys == t.Keys + {freshId} && |Put(t, r)| == |t| + 1
      && forall k :: k in t ==> Put(t, r)[k] == t[k]
  {
  }

  /** The body's attributes are spread into the item, so a non-empty `id` in
      the body is kept; when that id is stored, even under another user, the
      unconditional upsert replaces the stored record with the caller's. */
  lemma CreateWithBodyIdReplacesStoredRecord(t: Table, body: ItemData, caller: string, freshId: string, clockCreated: string, clockUpdated: string)
    requires body.id.Some? && body.id.value != "" && body.id.value in t
    ensures var r := CreatedRecord(body, caller, freshId, clockCreated, clockUpdated);
      r.id == body.id.value && Put(t, r).Keys == t.Keys
      && Put(t, r)[body.id.value].userId == Some(caller)
  {
  }

  /** The five handlers over one table. */
  class Handlers {
    const db: ItemTable

    constructor (db: ItemTable)
      ensures this.db == db
    {
      this.db := db;
    }

    /** `create`: build the item from the body with the caller as owner,
      validate it, store it and return it with 201. */
    method Create(body: Option<ItemData>, caller: string, freshId: string, clockCreated: string, clockUpdated: string, fault: Fault)
      returns (resp: Response<Record>)
      requires db.Valid()
      modifies db
      ensures db.Valid()
      ensures body.None? ==> resp == Internal() && db.items == old(db.items)
      ensures body.Some? ==>
        var errors := Violations(body.value.name, body.value.description, Some(caller));
        var record := CreatedRecord(body.value, caller, freshId, clockCreated, clockUpdated);
        if errors != [] then
          resp == Error(Join(errors, ", "), Some(400)) && db.items == old(db.items)
        else if fault == WriteFault then
          resp == Internal() && db.items == old(db.items)
        else
          resp == Success(record, Some(201)) && db.items == Put(old(db.items), record)
    {
      if body.None? {
        return Internal();
      }
      var item := new Item(Claimed(body.value, caller), freshId, clockCreated, clockUpdated);
      var errors := item.Validate();
      if |errors| > 0 {
        return Error(Join(errors, ", "), Some(400));
      }
      if fault == WriteFault {
        return Internal();
      }
      db.CreateItem(item.ToJSON());
      resp := Success(item.ToJSON(), Some(201));
    }

    /** `list`: the caller's records, each once, with 200. */
    method List(caller: string, fault: Fault) returns (resp: Response<seq<Record>>)
      requires db.Valid()
      ensures fault == ReadFault ==> resp == Internal()
      ensures fault != ReadFault ==>
        resp.body.data.Some? && resp == Success(resp.body.data.value, None)
        && (forall r :: r in resp.body.data.value <==> r in OwnedBy(db.items, caller))
        && (forall i, j :: 0 <= i < j < |resp.body.data.value| ==>
              resp.body.data.value[i].id != resp.body.data.value[j].id)
    {
      if fault == ReadFault {
        return Internal();
      }
      var items := db.GetItemsByUser(caller);
      resp := Success(items, None);
    }

    /** `get`: 404 for a missing id, 403 for another user's record, else the record with 200. */
    method Get(id: string, caller: string, fault: Fault) returns (resp: Response<Record>)
      ensures fault == ReadFault ==> resp == Internal()
      ensures fault != ReadFault ==>
        var a := Authorize(db.items, id, caller);
        if a.Owned? then resp == Success(a.record, None) else resp == Refusal(a)
    {
      if fault == ReadFault {
        return Internal();
      }
      var item := db.GetItem(id);
      if item.None? {
        return Error(NotFoundMessage, Some(404));
      }
      if item.value.userId != Some(caller) {
        return Error(UnauthorizedMessage, Some(403));
      }
      resp := Success(item.value, None);
    }

    /** `update`: after the checks of `get`, patch name and description as
      the body gives them (no validation) and return the patched record. */
    method Update(id: string, body: Option<ItemData>, caller: string, clock: string, fault: Fault)
      returns (resp: Response<Record>)
      requires db.Valid()
      modifies db
      ensures db.Valid()
      ensures body.None? || fault == ReadFault ==> resp == Internal() && db.items == old(db.items)
      ensures body.Some? && fault != ReadFault ==>
        var a := Authorize(old(db.items), id, caller);
        if !a.Owned? then
          resp == Refusal(a) && db.items == old(db.items)
        else if fault == WriteFault then
          resp == Internal() && db.items == old(db.items)
        else
          db.items == Patch(old(db.items), id, body.value.name, body.value.description, clock)
          && resp == Success(db.items[id], None)
    {
      if body.None? {
        return Internal();
      }
      if fault == ReadFault {
        return Internal();
      }
      var existing := db.GetItem(id);
      if existing.None? {
        return Error(NotFoundMessage, Some(404));
      }
      if existing.value.userId != Some(caller) {
        return Error(UnauthorizedMessage, Some(403));
      }
      if fault == WriteFault {
        return Internal();
      }
      var updated := db.UpdateItem(id, body.value.name, body.value.description, clock);
      resp := Success(updated, None);
    }

    /** `delete`: after the checks of `get`, remove the record and confirm with 200. */
    method Delete(id: string, caller: string, fault: Fault) returns (resp: Response<Deleted>)
      requires db.Valid()
      modifies db
      ensures db.Valid()
      ensures fault == ReadFault ==> resp == Internal() && db.items == old(db.items)
      ensures fault != ReadFault ==>
        var a := Authorize(old(db.items), id, caller);
        if !a.Owned? then
          resp == Refusal(a) && db.items == old(db.items)
        else if fault == WriteFault then
          resp == Internal() && db.items == old(db.items)
        else
          db.items == Remove(old(db.items), id) && resp == Success(Deleted(DeletedMessage), None)
    {
      if fault == ReadFault {
        return Internal();
      }
      var existing := db.GetItem(id);
      if existing.None? {
        return Error(NotFoundMessage, Some(404));
      }
      if existing.value.userId != Some(caller) {
        return Error(UnauthorizedMessage, Some(403));
      }
      if fault == WriteFault {
        return Internal();
      }
      db.DeleteItem(id);
      resp := Success(Deleted(DeletedMessage), None);
    }
  }

  /** The life of one item shared by two users against a fresh table: create,
      list, a get by the other user, update, delete and a get after the
      delete. Returns the status of each response, whether the list holds
      the created record, the created record's owner, the name after the
      update, and `updatedAt` after the create and after the update, which
      moves from the create's clock reading to the update's. */
  method Walkthrough() returns (created: int, listed: int, foreign: int, updated: int, deleted: int, gone: int,
                                listsCreated: bool, owner: Option<string>, renamed: Option<string>,
                                stamped: string, touched: string)
    ensures created == 201 && listed == 200 && foreign == 403
    ensures updated == 200 && deleted == 200 && gone == 404
    ensures listsCreated && owner == Some("u1") && renamed == Some("Book2")
    ensures stamped == "t0" && touched == "t1"
  {
    var db := new ItemTable();
    var api := new Handlers(db);
    var book := ItemData(None, Some("Book"), Some("A novel"), None, None, None);
    assert !IsWhitespace("Book"[0]) && !IsWhitespace("A novel"[0]);
    assert Violations(book.name, book.description, Some("u1")) == [];
    var r1 := api.Create(Some(book), "u1", "id-1", "t0", "t0", NoFault);
    created := r1.statusCode;
    var record := r1.body.data.value;
    owner := record.userId;
    stamped := record.updatedAt;
    assert db.items == map["id-1" := record] && owner == Some("u1");
    var r2 := api.List("u1", NoFault);
    listed := r2.statusCode;
    assert record in OwnedBy(db.items, "u1");
    listsCreated := record in r2.body.data.value;
    var r3 := api.Get("id-1", "u2", NoFault);
    foreign := r3.statusCode;
    var patch := ItemData(None, Some("Book2"), Some("Updated novel"), None, None, None);
    var r4 := api.Update("id-1", Some(patch), "u1", "t1", NoFault);
    updated := r4.statusCode;
    renamed := r4.body.data.value.name;
    touched := r4.body.data.value.updatedAt;
    assert "id-1" in db.items;
    var r5 := api.Delete("id-1", "u1", NoFault);
    deleted := r5.statusCode;
    assert "id-1" !in db.items;
    var r6 := api.Get("id-1", "u1", NoFault);
    gone := r6.statusCode;
  }

  /** A create whose name is empty is refused with 400 and the name message alone. */
  method RejectedCreate() returns (status: int, message: Option<string>)
    ensures status == 400 && message == Some(NameRequired)
  {
    var db := new ItemTable();
    var api := new Handlers(db);
    var blank := ItemData(None, Some(""), Some("x"), None, None, None);
    assert Blank(Some("")) && !Absent(Some("u1"));
    assert !IsWhitespace("x"[0]);
    assert !Blank(Some("x"));
    assert Violations(blank.name, blank.description, Some("u1")) == [NameRequired];
    assert Join([NameRequired], ", ") == NameRequired;
    var r := api.Create(Some(blank), "u1", "id-2", "t2", "t2", NoFault);
    assert r == Error(NameRequired, Some(400));
    status, message := r.statusCode, r.body.error;
  }
}
