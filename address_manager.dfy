/**
 * The saved-addresses screen: the address schema, the pure list updates
 * behind each handler, and the component's three state cells.
 */
module AddressSettings {
  import opened Wrappers
  import opened HookForm
  import Js

  /** An address as the form produces it; `id` and `isDefault` are optional. */
  datatype Address = Address(
    id: Option<string>,
    addressLabel: string,  // `label` in the form
    fullName: string,
    phone: string,
    streetAddress: string,
    city: string,
    state: string,
    zipCode: string,
    country: string,
    isDefault: Option<bool>)

  const InitialAddresses: seq<Address> := [
    Address(Some("1"), "Home", "John Doe", "+1 234 567 890", "123 Main St, Apt 4B", "New York", "NY", "10001", "USA", Some(true)),
    Address(Some("2"), "Work", "John Doe", "+1 234 567 890", "456 Corporate Blvd", "New York", "NY", "10022", "USA", Some(false))
  ]

  /** The form's values when no saved address is being edited. */
  const BlankAddress: Address :=
    Address(None, "", "", "", "", "", "", "", "United States", Some(false))

  /** The minimum lengths `addressSchema` demands. */
  predicate AddressSchemaValid(a: Address) {
    && |a.addressLabel| >= 2 && |a.fullName| >= 2 && |a.phone| >= 10 && |a.streetAddress| >= 5
    && |a.city| >= 2 && |a.state| >= 2 && |a.zipCode| >= 4 && |a.country| >= 2
  }

  /** `addressSchema`: every failed length check, in field order. */
  function AddressIssues(a: Address): (r: seq<Issue>)
    ensures r == [] <==> AddressSchemaValid(a)
    ensures Issue("phone", "Phone number is required") in r <==> |a.phone| < 10
    ensures Issue("streetAddress", "Street address is required") in r <==> |a.streetAddress| < 5
    ensures Issue("zipCode", "ZIP code is required") in r <==> |a.zipCode| < 4
    ensures |r| <= 8
  {
    MinLength("label", a.addressLabel, 2, "Label is required (e.g. Home, Work)")
    + MinLength("fullName", a.fullName, 2, "Full name is required")
    + MinLength("phone", a.phone, 10, "Phone number is required")
    + MinLength("streetAddress", a.streetAddress, 5, "Street address is required")
    + MinLength("city", a.city, 2, "City is required")
    + MinLength("state", a.state, 2, "State is required")
    + MinLength("zipCode", a.zipCode, 4, "ZIP code is required")
    + MinLength("country", a.country, 2, "Country is required")
  }

  /** The delete: the addresses whose id is not `id`, in their order. */
  function Deleted(xs: seq<Address>, id: string): (r: seq<Address>)
    ensures forall a :: a in r <==> a in xs && a.id != Some(id)
    ensures |r| <= |xs|
  {
    if xs == [] then []
    else (if xs[0].id != Some(id) then [xs[0]] else []) + Deleted(xs[1..], id)
  }

  /** Deleting from a concatenation deletes from each part: the survivors keep their order. */
  lemma {:induction false} DeletedAppend(xs: seq<Address>, ys: seq<Address>, id: string)
    ensures Deleted(xs + ys, id) == Deleted(xs, id) + Deleted(ys, id)
  {
    if xs == [] {
      assert xs + ys == ys;
    } else {
      assert (xs + ys)[0] == xs[0] && (xs + ys)[1..] == xs[1..] + ys;
      DeletedAppend(xs[1..], ys, id);
    }
  }

  /** Deleting an id no address has changes nothing. */
  lemma {:induction false} DeletedAbsent(xs: seq<Address>, id: string)
    requires forall i | 0 <= i < |xs| :: xs[i].id != Some(id)
    ensures Deleted(xs, id) == xs
  {
    if xs != [] {
      DeletedAbsent(xs[1..], id);
    }
  }

  /** The set-default map: each address is the default exactly when its id is `id`. */
  function WithDefault(xs: seq<Address>, id: string): (r: seq<Address>)
    ensures |r| == |xs|
    ensures forall i | 0 <= i < |xs| :: r[i] == xs[i].(isDefault := Some(xs[i].id == Some(id)))
  {
    seq(|xs|, i requires 0 <= i < |xs| => xs[i].(isDefault := Some(xs[i].id == Some(id))))
  }

  predicate UniqueIds(xs: seq<Address>) {
    forall i, j | 0 <= i < j < |xs| :: xs[i].id.Some? ==> xs[i].id != xs[j].id
  }

  /** With unique ids, setting the default of a listed id leaves exactly one default. */
  lemma SingleDefault(xs: seq<Address>, id: string, k: int)
    requires UniqueIds(xs) && 0 <= k < |xs| && xs[k].id == Some(id)
    ensures WithDefault(xs, id)[k].isDefault == Some(true)
    ensures forall i | 0 <= i < |xs| && i != k :: WithDefault(xs, id)[i].isDefault == Some(false)
  {
    var r := WithDefault(xs, id);
    forall i | 0 <= i < |xs| && i != k ensures r[i].isDefault == Some(false) {
      if i < k {
        assert xs[i].id.Some? ==> xs[i].id != xs[k].id;
      } else {
        assert xs[k].id != xs[i].id;
      }
    }
  }

  /** The edit: the address with id `editingId` becomes the form data, keeping that id. */
  function Updated(xs: seq<Address>, editingId: string, data: Address): (r: seq<Address>)
    ensures |r| == |xs|
    ensures forall i | 0 <= i < |xs| ::
              if xs[i].id == Some(editingId) then r[i] == data.(id := Some(editingId)) else r[i] == xs[i]
  {
    seq(|xs|, i requires 0 <= i < |xs| => if xs[i].id == Some(editingId) then data.(id := Some(editingId)) else xs[i])
  }

  /** An update keeps every address's id, so the list's ids stay unique. */
  lemma UpdatedKeepsIds(xs: seq<Address>, editingId: string, data: Address)
    ensures forall i | 0 <= i < |xs| :: Updated(xs, editingId, data)[i].id == xs[i].id
    ensures UniqueIds(xs) ==> UniqueIds(Updated(xs, editingId, data))
  {
  }

  /** The add: the form data with a fresh id at the end, the default when the list was empty. */
  function Appended(xs: seq<Address>, data: Address, freshId: string): (r: seq<Address>)
    ensures |r| == |xs| + 1 && r[..|xs|] == xs
    ensures r[|xs|].id == Some(freshId)
    ensures r[|xs|].isDefault == if xs == [] then Some(true) else data.isDefault
    ensures r[|xs|].(id := data.id, isDefault := data.isDefault) == data
  {
    var added := data.(id := Some(freshId));
    xs + [if xs == [] then added.(isDefault := Some(true)) else added]
  }

  /** `addresses.find(a => a.id === editingId)`, or the blank form when none matches. */
  function FormDefaults(xs: seq<Address>, editingId: Option<string>): (r: Address)
    ensures editingId.None? ==> r == BlankAddress
    ensures r != BlankAddress ==> r in xs && r.id == editingId
    ensures editingId.Some? && (exists i | 0 <= i < |xs| :: xs[i].id == editingId) ==> r in xs && r.id == editingId
  {
    if editingId.None? || xs == [] then BlankAddress
    else if xs[0].id == editingId then xs[0]
    else FormDefaults(xs[1..], editingId)
  }

  /** The component's state cells. */
  class AddressManager {
    var addresses: seq<Address>
    var isAdding: bool
    var editingId: Option<string>

    constructor ()
      ensures addresses == InitialAddresses && !isAdding && editingId.None?
    {
      addresses := InitialAddresses;
      isAdding := false;
      editingId := None;
    }

    /** Opens an empty form. */
    method HandleAddNew()
      modifies this
      ensures editingId.None? && isAdding && addresses == old(addresses)
    {
      editingId := None;
      isAdding := true;
    }

    /** Opens the form on `address`; an empty id counts as no id (`address.id || null`). */
    method HandleEdit(address: Address)
      modifies this
      ensures editingId == (if Js.Truthy(address.id) then address.id else None)
      ensures isAdding && addresses == old(addresses)
    {
      editingId := if Js.Truthy(address.id) then address.id else None;
      isAdding := true;
    }

    /** Deletes after the user confirms; `confirmed` is the answer to the confirmation prompt. */
    method HandleDelete(id: string, confirmed: bool)
      modifies this
      ensures addresses == if confirmed then Deleted(old(addresses), id) else old(addresses)
      ensures isAdding == old(isAdding) && editingId == old(editingId)
    {
      if confirmed {
        addresses := Deleted(addresses, id);
      }
    }

    method HandleSetDefault(id: string)
      modifies this
      ensures addresses == WithDefault(old(addresses), id)
      ensures isAdding == old(isAdding) && editingId == old(editingId)
    {
      addresses := WithDefault(addresses, id);
    }

    /**
     * Saves the form: an update in edit mode, otherwise an append under
     * `freshId` (the random id). Either way the form closes.
     */
    method HandleSave(data: Address, freshId: string)
      modifies this
      ensures addresses == if Js.Truthy(old(editingId)) then Updated(old(addresses), old(editingId).value, data)
                           else Appended(old(addresses), data, freshId)
      ensures !isAdding && editingId.None?
    {
      if Js.Truthy(editingId) {
        addresses := Updated(addresses, editingId.value, data);
      } else {
        addresses := Appended(addresses, data, freshId);
      }
      isAdding := false;
      editingId := None;
    }

    method HandleCancel()
      modifies this
      ensures !isAdding && editingId.None? && addresses == old(addresses)
    {
      isAdding := false;
      editingId := None;
    }

    /** The form's submit: the schema runs first, and only valid data reaches the save. */
    method Submit(data: Address, freshId: string) returns (issues: seq<Issue>)
      modifies this
      ensures issues == AddressIssues(data)
      ensures issues != [] ==> addresses == old(addresses) && isAdding == old(isAdding) && editingId == old(editingId)
      ensures issues == [] ==> !isAdding && editingId.None?
      ensures issues == [] ==>
                addresses == if Js.Truthy(old(editingId)) then Updated(old(addresses), old(editingId).value, data)
                             else Appended(old(addresses), data, freshId)
    {
      issues := AddressIssues(data);
      if issues == [] {
        HandleSave(data, freshId);
      }
    }
  }
}
