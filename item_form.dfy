/** The item form (frontend/src/components/ItemForm.tsx): its state, the
    client-side checks, which are stricter than the server's, and the
    submit, edit and reset transitions. */
module ItemForm {
  import opened Wrappers
  import opened JsText
  import opened ClientTypes
  import ItemModel

  const NameKey := "name"
  const DescriptionKey := "description"

  const NameMissing := "Name is required"
  const NameTooShort := "Name must be at least 2 characters"
  const DescriptionMissing := "Description is required"
  const DescriptionTooShort := "Description must be at least 10 characters"

  /** The two fields the form edits. */
  datatype Field = NameField | DescriptionField {
    function Key(): string {
      if NameField? then NameKey else DescriptionKey
    }
  }

  /** The check on the name: emptiness after trimming first, then the minimum length of 2. */
  function NameError(name: string): (e: Option<string>)
    ensures e.None? <==> |Trim(name)| >= 2
    ensures e == Some(NameMissing) <==> Trim(name) == []
    ensures e == Some(NameTooShort) <==> |Trim(name)| == 1
  {
    if Trim(name) == [] then Some(NameMissing)
    else if |Trim(name)| < 2 then Some(NameTooShort)
    else None
  }

  /** The check on the description: emptiness after trimming first, then the minimum length of 10. */
  function DescriptionError(description: string): (e: Option<string>)
    ensures e.None? <==> |Trim(description)| >= 10
    ensures e == Some(DescriptionMissing) <==> Trim(description) == []
    ensures e == Some(DescriptionTooShort) <==> 1 <= |Trim(description)| <= 9
  {
    if Trim(description) == [] then Some(DescriptionMissing)
    else if |Trim(description)| < 10 then Some(DescriptionTooShort)
    else None
  }

  /** The errors dictionary `validateForm` builds: at most one message per
      field, a key only for a field whose check fails. */
  function FormErrors(name: string, description: string): (errors: map<string, string>)
    ensures errors.Keys <= {NameKey, DescriptionKey}
    ensures NameKey in errors <==> |Trim(name)| < 2
    ensures DescriptionKey in errors <==> |Trim(description)| < 10
    ensures NameKey in errors ==> Some(errors[NameKey]) == NameError(name)
    ensures DescriptionKey in errors ==> Some(errors[DescriptionKey]) == DescriptionError(description)
    ensures errors == map[] <==> |Trim(name)| >= 2 && |Trim(description)| >= 10
  {
    var withName := if NameError(name).Some? then map[NameKey := NameError(name).value] else map[];
    if DescriptionError(description).Some? then withName[DescriptionKey := DescriptionError(description).value]
    else withName
  }

  /** Whatever the form accepts, the server's create accepts too: a name or
      description the form lets through is never blank to the server, and
      with a caller identity the server reports no violation at all. */
  lemma FormAcceptedPassesServer(name: string, description: string, caller: string)
    requires FormErrors(name, description) == map[]
    ensures ItemModel.NameRequired !in ItemModel.Violations(Some(name), Some(description), Some(caller))
    ensures ItemModel.DescriptionRequired !in ItemModel.Violations(Some(name), Some(description), Some(caller))
    ensures caller != "" ==> ItemModel.Violations(Some(name), Some(description), Some(caller)) == []
  {
  }

  /** The form's state: the two field values and the errors shown under them. */
  class FormState {
    var name: string
    var description: string
    var errors: map<string, string>

    /** The initial state: the edited item's values (`item?.name || ""`), or empty fields. */
    constructor (item: Option<ClientItem>)
      ensures name == (if item.Some? then item.value.name else "")
      ensures description == (if item.Some? then item.value.description else "")
      ensures errors == map[]
    {
      name := OrElse(if item.Some? then Some(item.value.name) else None, "");
      description := OrElse(if item.Some? then Some(item.value.description) else None, "");
      errors := map[];
    }

    /** The effect run when the item or the open flag changes: load the item's
      values, or empty fields, and clear every error. */
    method Reset(item: Option<ClientItem>)
      modifies this
      ensures name == (if item.Some? then item.value.name else "")
      ensures description == (if item.Some? then item.value.description else "")
      ensures errors == map[]
    {
      if item.Some? {
        name, description := item.value.name, item.value.description;
      } else {
        name, description := "", "";
      }
      errors := map[];
    }

    /** `validateForm`: record the errors of the current values; true exactly when there are none. */
    method ValidateForm() returns (valid: bool)
      modifies this`errors
      ensures errors == FormErrors(name, description)
      ensures valid <==> errors == map[]
    {
      var newErrors: map<string, string> := map[];
      var trimmedName := Trim(name);
      if trimmedName == [] {
        newErrors := newErrors[NameKey := NameMissing];
      } else if |trimmedName| < 2 {
        newErrors := newErrors[NameKey := NameTooShort];
      }
      assert newErrors == if NameError(name).Some? then map[NameKey := NameError(name).value] else map[];
      ghost var withName := newErrors;
      var trimmedDescription := Trim(description);
      if trimmedDescription == [] {
        newErrors := newErrors[DescriptionKey := DescriptionMissing];
      } else if |trimmedDescription| < 10 {
        newErrors := newErrors[DescriptionKey := DescriptionTooShort];
      }
      assert newErrors == if DescriptionError(description).Some?
        then withName[DescriptionKey := DescriptionError(description).value] else withName;
      errors := newErrors;
      valid := newErrors == map[];
    }

    /** `handleSubmit`: validate; only when that passes, hand the values to
      `onSubmit` and then call `onClose`. The outputs are the data given to
      `onSubmit`, if any, and whether `onClose` was called. */
    method HandleSubmit() returns (submitted: Option<ItemRequest>, closed: bool)
      modifies this`errors
      ensures errors == FormErrors(name, description)
      ensures errors == map[] ==> submitted == Some(ItemRequest(name, description))
      ensures errors != map[] ==> submitted.None?
      ensures closed <==> submitted.Some?
    {
      var valid := ValidateForm();
      if valid {
        submitted, closed := Some(ItemRequest(name, description)), true;
      } else {
        submitted, closed := None, false;
      }
    }

    /** `handleChange(field)`: store the new value in that field only; blank
      that field's error only when one is showing. */
    method HandleChange(field: Field, value: string)
      modifies this
      ensures field == NameField ==> name == value && description == old(description)
      ensures field == DescriptionField ==> description == value && name == old(name)
      ensures field.Key() in old(errors) && old(errors)[field.Key()] != "" ==>
        errors == old(errors)[field.Key() := ""]
      ensures !(field.Key() in old(errors) && old(errors)[field.Key()] != "") ==> errors == old(errors)
    {
      if field == NameField {
        name := value;
      } else {
        description := value;
      }
      if field.Key() in errors && errors[field.Key()] != "" {
        errors := errors[field.Key() := ""];
      }
    }
  }
}
