/** The role editor form: a name, a description and the list of checked
    permission ids, which a checkbox click toggles. */
module RoleEdit {

  datatype RoleForm = RoleForm(name: string, description: string, permissionIds: seq<string>)

  /** The permission list in a role response: each permission's id and name. */
  datatype PermissionResponse = PermissionResponse(id: string, name: string)

  datatype RoleResponse = RoleResponse(name: string, description: string, permissions: seq<PermissionResponse>)

  /** ids.filter(id => id !== x): every occurrence of x dropped, the rest
      kept in order. */
  function Without(ids: seq<string>, x: string): (r: seq<string>)
    ensures x !in r
    ensures forall y :: y != x ==> multiset(r)[y] == multiset(ids)[y]
  {
    if ids == [] then []
    else
      var rest := Without(ids[1..], x);
      assert ids == [ids[0]] + ids[1..];
      if ids[0] == x then rest else [ids[0]] + rest
  }

  /** Filtering out an id that is not there changes nothing. */
  lemma {:induction false} WithoutAbsent(ids: seq<string>, x: string)
    requires x !in ids
    ensures Without(ids, x) == ids
  {
    if ids != [] {
      WithoutAbsent(ids[1..], x);
    }
  }

  /** handleTogglePermission: a checked id is unchecked, every copy of it
      removed; an unchecked one is appended at the end. */
  function Toggle(form: RoleForm, permId: string): (r: RoleForm)
    ensures r.name == form.name && r.description == form.description
  {
    var ids := form.permissionIds;
    form.(permissionIds := if permId in ids then Without(ids, permId) else ids + [permId])
  }

  /** A click flips whether the id is checked and leaves every other id's
      occurrences as they were. */
  lemma ToggleFlips(form: RoleForm, permId: string)
    ensures var r := Toggle(form, permId).permissionIds;
      (permId in r <==> permId !in form.permissionIds) &&
      forall y :: y != permId ==> multiset(r)[y] == multiset(form.permissionIds)[y]
  {
  }

  /** An unchecked id goes to the end of the list. */
  lemma ToggleAppends(form: RoleForm, permId: string)
    requires permId !in form.permissionIds
    ensures Toggle(form, permId).permissionIds == form.permissionIds + [permId]
  {
  }

  /** Clicking an unchecked permission twice gives the form back. */
  lemma ToggleTwiceRestores(form: RoleForm, permId: string)
    requires permId !in form.permissionIds
    ensures Toggle(Toggle(form, permId), permId) == form
  {
    var ids := form.permissionIds;
    var once := ids + [permId];
    assert permId in once;
    assert Without(once, permId) == ids by {
      WithoutAppended(ids, permId);
    }
  }

  /** Removing x from a list that ends in x, and holds it nowhere else,
      gives the list before it. */
  lemma {:induction false} WithoutAppended(ids: seq<string>, x: string)
    requires x !in ids
    ensures Without(ids + [x], x) == ids
  {
    if ids == [] {
      assert [] + [x] == [x];
    } else {
      assert (ids + [x])[1..] == ids[1..] + [x];
      WithoutAppended(ids[1..], x);
    }
  }

  /** The ids of a response's permissions, in response order. */
  function PermissionIds(ps: seq<PermissionResponse>): (ids: seq<string>)
    ensures |ids| == |ps| && forall i :: 0 <= i < |ps| ==> ids[i] == ps[i].id
  {
    seq(|ps|, i requires 0 <= i < |ps| => ps[i].id)
  }

  /** Loading an existing role: name and description as sent, and the
      permissions' ids in the order they came. */
  function Load(res: RoleResponse): (form: RoleForm)
    ensures form.name == res.name && form.description == res.description
    ensures |form.permissionIds| == |res.permissions|
    ensures forall i :: 0 <= i < |res.permissions| ==> form.permissionIds[i] == res.permissions[i].id
  {
    RoleForm(res.name, res.description, PermissionIds(res.permissions))
  }

  /** The blank form of a new role. */
  const NewForm := RoleForm("", "", [])
}
