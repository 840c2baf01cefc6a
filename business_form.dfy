/**
  The business form's custom-field editor and its submit step.

  The form keeps its custom fields as a map from field name to value; each edit
  returns a new map (`setCustomFields(prev => ...)`). On submit the map replaces
  the form's own `customFields`, and the record goes to the update route when the
  form edits an existing business, to the create route otherwise.
 */
module BusinessForm {
  import opened Wrappers
  import opened Strings
  import opened Schema
  import Storage
  import Routes

  /** `field_${Date.now()}`: the name of a field added at time `now` (milliseconds). */
  function NewFieldName(now: nat): string {
    "field_" + NatToDecimal(now)
  }

  /** Fields added at different times get different names. */
  lemma NewFieldNameInjective(a: nat, b: nat)
    requires a != b
    ensures NewFieldName(a) != NewFieldName(b)
  {
    DecimalInjective(a, b);
    assert NewFieldName(a)[6..] == NatToDecimal(a);
    assert NewFieldName(b)[6..] == NatToDecimal(b);
  }

  /** `addCustomField`: one field more, with an empty value; every other entry as it was. */
  function AddCustomField(fields: CustomFields, now: nat): (r: CustomFields)
    ensures NewFieldName(now) in r && r[NewFieldName(now)] == ""
    ensures forall k :: k != NewFieldName(now) ==> (k in r <==> k in fields)
    ensures forall k :: k in fields && k != NewFieldName(now) ==> r[k] == fields[k]
  {
    fields[NewFieldName(now) := ""]
  }

  /** `removeCustomField`: exactly that field goes. */
  function RemoveCustomField(fields: CustomFields, name: string): (r: CustomFields)
    ensures name !in r
    ensures forall k :: k != name ==> (k in r <==> k in fields)
    ensures forall k :: k in r ==> r[k] == fields[k]
  {
    fields - {name}
  }

  /** `updateCustomField`: the field gets the value (it is added if missing); the others stay. */
  function UpdateCustomField(fields: CustomFields, name: string, value: string): (r: CustomFields)
    ensures name in r && r[name] == value
    ensures forall k :: k != name ==> (k in r <==> k in fields)
    ensures forall k :: k in fields && k != name ==> r[k] == fields[k]
  {
    fields[name := value]
  }

  /**
    `updateCustomFieldName(oldName, newName)`: nothing when the names are equal;
    otherwise `newName` takes the value of `oldName` (overwriting any value it had)
    and `oldName` goes. When `oldName` is not a field, `newName` would hold
    `undefined`, which the JSON body drops: it is modelled as removed.
   */
  function UpdateCustomFieldName(fields: CustomFields, oldName: string, newName: string): (r: CustomFields)
    ensures oldName == newName ==> r == fields
    ensures oldName != newName ==> oldName !in r
    ensures oldName != newName ==> (newName in r <==> oldName in fields)
    ensures oldName != newName && oldName in fields ==> r[newName] == fields[oldName]
    ensures forall k :: k != oldName && k != newName ==> (k in r <==> k in fields)
    ensures forall k :: k in fields && k != oldName && k != newName ==> r[k] == fields[k]
  {
    if oldName == newName then fields
    else if oldName in fields then fields[newName := fields[oldName]] - {oldName}
    else fields - {oldName, newName}
  }

  /** Removing a field just added (under a name not yet used) gives back the fields before. */
  lemma RemoveUndoesAdd(fields: CustomFields, now: nat)
    requires NewFieldName(now) !in fields
    ensures RemoveCustomField(AddCustomField(fields, now), NewFieldName(now)) == fields
  {
    var r := RemoveCustomField(AddCustomField(fields, now), NewFieldName(now));
    assert r.Keys == fields.Keys;
  }

  /** Two adds at different times keep both new fields and every old one. */
  lemma TwoAddsKeepBoth(fields: CustomFields, t1: nat, t2: nat)
    requires t1 != t2
    ensures var r := AddCustomField(AddCustomField(fields, t1), t2);
      && NewFieldName(t1) in r && NewFieldName(t2) in r
      && forall k :: k in fields ==> k in r
  {
    NewFieldNameInjective(t1, t2);
  }

  /** Renaming a field to an unused name and back gives back the fields before. */
  lemma RenameRoundTrip(fields: CustomFields, oldName: string, newName: string)
    requires oldName in fields && newName !in fields
    ensures UpdateCustomFieldName(UpdateCustomFieldName(fields, oldName, newName), newName, oldName) == fields
  {
    var r := UpdateCustomFieldName(UpdateCustomFieldName(fields, oldName, newName), newName, oldName);
    assert r.Keys == fields.Keys;
  }

  /** Renaming keeps every value: the new map's values are the old map's values. */
  lemma RenameKeepsValues(fields: CustomFields, oldName: string, newName: string)
    requires oldName in fields && newName !in fields
    ensures UpdateCustomFieldName(fields, oldName, newName).Values == fields.Values
  {
    var r := UpdateCustomFieldName(fields, oldName, newName);
    forall v | v in fields.Values ensures v in r.Values {
      var k :| k in fields && fields[k] == v;
      if k == oldName { assert r[newName] == v; } else { assert r[k] == v; }
    }
    forall v | v in r.Values ensures v in fields.Values {
      var k :| k in r && r[k] == v;
      if k == newName { assert fields[oldName] == v; } else { assert fields[k] == v; }
    }
  }

  /** Where the form sends its record: `PUT /api/businesses/:id` or `POST /api/businesses`. */
  datatype Submission = Create(data: InsertBusiness) | Update(id: int, data: InsertBusiness)

  /** `onSubmit`: the custom-field map replaces the record's `customFields`; update iff a business is edited. */
  function OnSubmit(data: InsertBusiness, customFields: CustomFields, business: Option<Business>): (r: Submission)
    ensures r.Update? <==> business.Some?
    ensures r.Update? ==> r.id == business.value.id
    ensures r.data.customFields == Given(Some(customFields))
    ensures r.data == data.(customFields := r.data.customFields)
  {
    var submitted := data.(customFields := Given(Some(customFields)));
    match business
    case Some(b) => Update(b.id, submitted)
    case None => Create(submitted)
  }

  /**
    A new business submitted from the form, with a tax ID not yet stored, is
    created with exactly the form's custom-field map.
   */
  lemma SubmittedCustomFieldsAreStored(rows: seq<Business>, nextId: int, now: int,
                                       data: InsertBusiness, customFields: CustomFields)
    requires InsertWithinLengths(data)
    requires forall i :: 0 <= i < |rows| ==> rows[i].taxId != data.taxId
    ensures var x := OnSubmit(data, customFields, None).data;
      var resp := Routes.CreateBusinessRoute(rows, nextId, InsertBusinessBody(x), now);
      && resp.status == 201
      && resp.payload.BusinessPayload?
      && resp.payload.business.customFields == Some(customFields)
  {
    var x := OnSubmit(data, customFields, None).data;
    Routes.CreateBusinessRouteStores(rows, nextId, x, now);
  }
}
