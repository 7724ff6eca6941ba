/** The Item entity (backend/src/models/Item.js): building an item from
    untrusted data with defaults, checking it, and its stored form. */
module ItemModel {
  import opened Wrappers
  import opened JsText

  const NameRequired := "Name is required"
  const DescriptionRequired := "Description is required"
  const UserIdRequired := "User ID is required"

  /** The attributes an item is built from (a parsed request body merged with
      the caller's identity); an attribute the data does not carry is None. */
  datatype ItemData = ItemData(
    id: Option<string>,
    name: Option<string>,
    description: Option<string>,
    userId: Option<string>,
    createdAt: Option<string>,
    updatedAt: Option<string>)

  /** The plain object `toJSON` yields: what the table stores and the API returns. */
  datatype Record = Record(
    id: string,
    name: Option<string>,
    description: Option<string>,
    userId: Option<string>,
    createdAt: string,
    updatedAt: string)

  /** `!v || v.trim().length === 0`: absent, empty or whitespace only. */
  predicate Blank(v: Option<string>) {
    v.None? || Trim(v.value) == []
  }

  /** `!v`: absent or empty. */
  predicate Absent(v: Option<string>) {
    v.None? || v.value == ""
  }

  /** Position of a message in the order the rules are checked. */
  function Rank(message: string): nat {
    if message == NameRequired then 0
    else if message == DescriptionRequired then 1
    else 2
  }

  /** Every rule the attributes break, each message once, in the order name,
      description, user id; empty exactly when all three rules hold. */
  function Violations(name: Option<string>, description: Option<string>, userId: Option<string>): (errors: seq<string>)
    ensures NameRequired in errors <==> Blank(name)
    ensures DescriptionRequired in errors <==> Blank(description)
    ensures UserIdRequired in errors <==> Absent(userId)
    ensures forall e :: e in errors ==> e == NameRequired || e == DescriptionRequired || e == UserIdRequired
    ensures forall i, j :: 0 <= i < j < |errors| ==> Rank(errors[i]) < Rank(errors[j])
    ensures |errors| <= 3
    ensures errors == [] <==> !Blank(name) && !Blank(description) && !Absent(userId)
  {
    (if Blank(name) then [NameRequired] else [])
    + (if Blank(description) then [DescriptionRequired] else [])
    + (if Absent(userId) then [UserIdRequired] else [])
  }

  /** The record the constructor followed by `toJSON` produces: a supplied
      non-empty id or timestamp is kept, a missing or empty one is replaced by
      the fresh id or the clock reading; the other attributes pass unchanged. */
  function Build(data: ItemData, freshId: string, clockCreated: string, clockUpdated: string): (r: Record)
    ensures data.id.Some? && data.id.value != "" ==> r.id == data.id.value
    ensures data.id.None? || data.id.value == "" ==> r.id == freshId
    ensures data.createdAt.Some? && data.createdAt.value != "" ==> r.createdAt == data.createdAt.value
    ensures data.createdAt.None? || data.createdAt.value == "" ==> r.createdAt == clockCreated
    ensures data.updatedAt.Some? && data.updatedAt.value != "" ==> r.updatedAt == data.updatedAt.value
    ensures data.updatedAt.None? || data.updatedAt.value == "" ==> r.updatedAt == clockUpdated
    ensures r.name == data.name && r.description == data.description && r.userId == data.userId
  {
    Record(OrElse(data.id, freshId), data.name, data.description, data.userId,
           OrElse(data.createdAt, clockCreated), OrElse(data.updatedAt, clockUpdated))
  }

  /** An item under construction or check. The id generator and the two clock
      reads in Item.js are the constructor's last three parameters. */
  class Item {
    var id: string
    var name: Option<string>
    var description: Option<string>
    var userId: Option<string>
    var createdAt: string
    var updatedAt: string

    constructor (data: ItemData, freshId: string, clockCreated: string, clockUpdated: string)
      ensures ToJSON() == Build(data, freshId, clockCreated, clockUpdated)
    {
      id := OrElse(data.id, freshId);
      name := data.name;
      description := data.description;
      userId := data.userId;
      createdAt := OrElse(data.createdAt, clockCreated);
      updatedAt := OrElse(data.updatedAt, clockUpdated);
    }

    /** The messages of every broken rule; reads the item and changes none of its fields. */
    method Validate() returns (errors: seq<string>)
      ensures errors == Violations(name, description, userId)
    {
      ghost var byName: seq<string> := if Blank(name) then [NameRequired] else [];
      ghost var byDescription: seq<string> := if Blank(description) then [DescriptionRequired] else [];
      errors := [];
      if Blank(name) {
        errors := errors + [NameRequired];
      }
      assert errors == byName;
      if Blank(description) {
        errors := errors + [DescriptionRequired];
      }
      assert errors == byName + byDescription;
      if Absent(userId) {
        errors := errors + [UserIdRequired];
      }
    }

    /** Exactly the six attributes, copied from the item. */
    function ToJSON(): (r: Record)
      reads this
      ensures r.id == id && r.name == name && r.description == description
      ensures r.userId == userId && r.createdAt == createdAt && r.updatedAt == updatedAt
    {
      Record(id, name, description, userId, createdAt, updatedAt)
    }
  }
}
