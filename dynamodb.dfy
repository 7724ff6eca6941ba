/** The storage gateway (backend/src/utils/dynamodb.js) over an in-memory
    table: a map from the primary key `id` to the stored record. */
module Store {
  import opened Wrappers
  import opened ItemModel

  type Table = map<string, Record>

  /** Every record is filed under its own id, the table's primary key. */
  predicate Keyed(t: Table) {
    forall k :: k in t ==> t[k].id == k
  }

  /** Unconditional upsert by id: the record lands at its key, every other key keeps its record. */
  function Put(t: Table, r: Record): (t': Table)
    ensures t'.Keys == t.Keys + {r.id}
    ensures t'[r.id] == r
    ensures forall k :: k in t && k != r.id ==> t'[k] == t[k]
    ensures Keyed(t) ==> Keyed(t')
  {
    t[r.id := r]
  }

  /** Point lookup: the record at `id`, or nothing when the key is absent. */
  function Find(t: Table, id: string): (r: Option<Record>)
    ensures r.Some? <==> id in t
    ensures r.Some? ==> r.value == t[id]
  {
    if id in t then Some(t[id]) else None
  }

  /** The records the owner index holds for `userId`. */
  function OwnedBy(t: Table, userId: string): (s: set<Record>)
    ensures forall r :: r in s ==> r.userId == Some(userId) && r in t.Values
    ensures Keyed(t) ==> forall r :: r in s ==> r.id in t && t[r.id] == r
    ensures forall k :: k in t && t[k].userId == Some(userId) ==> t[k] in s
  {
    set k | k in t && t[k].userId == Some(userId) :: t[k]
  }

  /** The field-level patch: `name`, `description` and `updatedAt` are set,
      `id`, `userId` and `createdAt` kept, every other key untouched. */
  function Patch(t: Table, id: string, name: Option<string>, description: Option<string>, now: string): (t': Table)
    requires id in t
    ensures t'.Keys == t.Keys
    ensures t'[id].name == name && t'[id].description == description && t'[id].updatedAt == now
    ensures t'[id].id == t[id].id && t'[id].userId == t[id].userId && t'[id].createdAt == t[id].createdAt
    ensures forall k :: k in t && k != id ==> t'[k] == t[k]
    ensures Keyed(t) ==> Keyed(t')
  {
    t[id := t[id].(name := name, description := description, updatedAt := now)]
  }

  /** Delete by key: only `id` goes, and an absent key is no error. */
  function Remove(t: Table, id: string): (t': Table)
    ensures t'.Keys == t.Keys - {id}
    ensures forall k :: k in t' ==> t'[k] == t[k]
    ensures id !in t ==> t' == t
    ensures Keyed(t) ==> Keyed(t')
  {
    t - {id}
  }

  /** Deleting twice has the effect of deleting once. */
  lemma RemoveIdempotent(t: Table, id: string)
    ensures Remove(Remove(t, id), id) == Remove(t, id)
  {
  }

  /** A read after an upsert returns what was written. */
  lemma FindAfterPut(t: Table, r: Record)
    ensures Find(Put(t, r), r.id) == Some(r)
  {
  }

  /** A read after a delete finds nothing. */
  lemma FindAfterRemove(t: Table, id: string)
    ensures Find(Remove(t, id), id) == None
  {
  }

  /** The items table. Each method is one round trip of the gateway; the AWS
      transport is replaced by the `items` map. */
  class ItemTable {
    var items: Table

    ghost predicate Valid()
      reads this
    {
      Keyed(items)
    }

    constructor ()
      ensures Valid() && items == map[]
    {
      items := map[];
    }

    /** `createItem`: put the record under its id. */
    method CreateItem(r: Record)
      requires Valid()
      modifies this
      ensures Valid()
      ensures items == Put(old(items), r)
    {
      items := items[r.id := r];
    }

    /** `getItem`: the record at `id`, or nothing. */
    method GetItem(id: string) returns (r: Option<Record>)
      ensures r == Find(items, id)
    {
      if id in items {
        r := Some(items[id]);
      } else {
        r := None;
      }
    }

    /** `getItemsByUser`: the query on the owner index; every record whose
      `userId` is `userId`, each once, in no particular order. */
    method GetItemsByUser(userId: string) returns (rs: seq<Record>)
      requires Valid()
      ensures forall r :: r in rs <==> r in OwnedBy(items, userId)
      ensures forall i, j :: 0 <= i < j < |rs| ==> rs[i].id != rs[j].id
    {
      rs := [];
      var pending := items.Keys;
      while pending != {}
        invariant pending <= items.Keys
        invariant forall i :: 0 <= i < |rs| ==> rs[i].id in items && rs[i].id !in pending
        invariant forall i :: 0 <= i < |rs| ==> items[rs[i].id] == rs[i] && rs[i].userId == Some(userId)
        invariant forall k :: k in items && k !in pending && items[k].userId == Some(userId) ==> items[k] in rs
        invariant forall i, j :: 0 <= i < j < |rs| ==> rs[i].id != rs[j].id
        decreases pending
      {
        var k :| k in pending;
        if items[k].userId == Some(userId) {
          rs := rs + [items[k]];
        }
        pending := pending - {k};
      }
    }

    /** `updateItem`: apply the patch and return the whole record after it.
      The key must be present: each handler checks existence first. */
    method UpdateItem(id: string, name: Option<string>, description: Option<string>, now: string) returns (r: Record)
      requires Valid() && id in items
      modifies this
      ensures Valid()
      ensures items == Patch(old(items), id, name, description, now)
      ensures r == items[id]
    {
      r := items[id].(name := name, description := description, updatedAt := now);
      items := items[id := r];
    }

    /** `deleteItem`: remove the key, present or not. */
    method DeleteItem(id: string)
      requires Valid()
      modifies this
      ensures Valid()
      ensures items == Remove(old(items), id)
    {
      items := items - {id};
    }
  }
}
