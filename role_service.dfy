/** RoleService: roles are uniquely named sets of permissions. Creating and
    editing a role resolves the requested permission ids against the
    permission table; deleting a role first strips it from every cadet that
    holds it, so no cadet is left referring to a deleted role. */
module RoleService {
  import opened Errors
  import opened Authority
  import opened Store

  type Roles = map<Id, Role>

  /** The fields of a create or update request; a missing id set is `None`. */
  datatype RoleRequest = RoleRequest(name: string, description: Option<string>, permissionIds: Option<set<Id>>)

  /** roleRepository.findByName(name).isPresent(). */
  predicate RoleNameTaken(roles: Roles, name: string)
  {
    exists id :: id in roles && roles[id].name == name
  }

  predicate RoleNamesUnique(roles: Roles)
  {
    forall a, b :: a in roles && b in roles && a != b ==> roles[a].name != roles[b].name
  }

  /** fetchPermissionsByIds: nothing for a missing or empty id set, else the
      ids that exist; unknown ids are dropped without an error. */
  function FetchPermissionsByIds(perms: map<Id, Permission>, ids: Option<set<Id>>): (r: set<Id>)
    ensures r <= perms.Keys
    ensures forall p :: p in r <==> ids.Some? && p in ids.value && p in perms
  {
    if ids.None? || ids.value == {} then {}
    else set p | p in ids.value && p in perms
  }

  // ---------------------------------------------------------------- createRole

  ghost function CreateRoleSpec(roles: Roles, perms: map<Id, Permission>, req: RoleRequest, newId: Id): Outcome<Roles, Role>
  {
    if RoleNameTaken(roles, req.name) then Outcome(roles, Err(ResourceConflict))
    else
      var role := Role(req.name, req.description, FetchPermissionsByIds(perms, req.permissionIds));
      Outcome(roles[newId := role], Ok(role))
  }

  method CreateRole(db: Db, req: RoleRequest, newId: Id) returns (r: Result<Role>)
    requires newId !in db.roles
    modifies db`roles
    ensures db.roles == CreateRoleSpec(old(db.roles), old(db.permissions), req, newId).state
    ensures r == CreateRoleSpec(old(db.roles), old(db.permissions), req, newId).result
  {
    if RoleNameTaken(db.roles, req.name) {
      return Err(ResourceConflict);
    }
    var role := Role(req.name, req.description, FetchPermissionsByIds(db.permissions, req.permissionIds));
    db.roles := db.roles[newId := role];
    r := Ok(role);
  }

  /** A taken name is refused with nothing saved; otherwise exactly one role
      is added, carrying the requested name and description and the
      requested permissions that exist, and names stay unique. */
  lemma CreateRoleCorrect(roles: Roles, perms: map<Id, Permission>, req: RoleRequest, newId: Id)
    requires newId !in roles && RoleNamesUnique(roles)
    ensures var e := CreateRoleSpec(roles, perms, req, newId);
      (e.result.Err? <==> RoleNameTaken(roles, req.name)) &&
      (e.result.Err? ==> e.state == roles && e.result.error == ResourceConflict)
    ensures var e := CreateRoleSpec(roles, perms, req, newId);
      e.result.Ok? ==>
        e.state.Keys == roles.Keys + {newId} && e.state[newId] == e.result.value &&
        e.result.value.name == req.name && e.result.value.description == req.description &&
        e.result.value.permissions == (if req.permissionIds.Some? then req.permissionIds.value * perms.Keys else {}) &&
        RoleNamesUnique(e.state)
  {
  }

  // ---------------------------------------------------------------- updateRole

  ghost function UpdateRoleSpec(roles: Roles, perms: map<Id, Permission>, id: Id, req: RoleRequest): Outcome<Roles, Role>
  {
    if id !in roles then Outcome(roles, Err(ResourceNotFound))
    else if roles[id].name != req.name && RoleNameTaken(roles, req.name) then Outcome(roles, Err(ResourceConflict))
    else
      var role := Role(req.name, req.description, FetchPermissionsByIds(perms, req.permissionIds));
      Outcome(roles[id := role], Ok(role))
  }

  method UpdateRole(db: Db, id: Id, req: RoleRequest) returns (r: Result<Role>)
    modifies db`roles
    ensures db.roles == UpdateRoleSpec(old(db.roles), old(db.permissions), id, req).state
    ensures r == UpdateRoleSpec(old(db.roles), old(db.permissions), id, req).result
  {
    if id !in db.roles {
      return Err(ResourceNotFound);
    }
    if db.roles[id].name != req.name && RoleNameTaken(db.roles, req.name) {
      return Err(ResourceConflict);
    }
    var permissions := FetchPermissionsByIds(db.permissions, req.permissionIds);
    var role := db.roles[id];
    role := role.(name := req.name);
    role := role.(description := req.description);
    role := role.(permissions := permissions);
    db.roles := db.roles[id := role];
    r := Ok(role);
  }

  /** An update keeps names unique, replaces the permission set wholesale
      (an empty or missing id set clears it), and touches no other role;
      keeping the same name is never a conflict. */
  lemma UpdateRoleCorrect(roles: Roles, perms: map<Id, Permission>, id: Id, req: RoleRequest)
    requires RoleNamesUnique(roles)
    ensures var e := UpdateRoleSpec(roles, perms, id, req);
      RoleNamesUnique(e.state) && e.state.Keys == roles.Keys && (e.result.Err? ==> e.state == roles)
    ensures var e := UpdateRoleSpec(roles, perms, id, req);
      e.result.Ok? ==>
        e.state[id].name == req.name &&
        (forall p :: p in e.state[id].permissions <==> req.permissionIds.Some? && p in req.permissionIds.value && p in perms) &&
        forall other :: other in roles && other != id ==> e.state[other] == roles[other]
    ensures id in roles && req.name == roles[id].name ==> UpdateRoleSpec(roles, perms, id, req).result.Ok?
  {
  }

  // ---------------------------------------------------------------- deleteRole

  /** A cadet without the role. */
  function WithoutRole(c: Cadet, id: Id): (d: Cadet)
    ensures id !in d.roles && d.roles == c.roles - {id}
  {
    c.(roles := c.roles - {id})
  }

  /** The cadet table after the role is stripped from every cadet holding it
      (findAllByRoles_Id, then remove and save each). */
  function StripRole(cadets: map<Id, Cadet>, id: Id): map<Id, Cadet>
  {
    map c | c in cadets :: if id in cadets[c].roles then WithoutRole(cadets[c], id) else cadets[c]
  }

  /** deleteRole: an unknown id is refused; otherwise the role is removed
      from each holder, one cadet at a time, and then deleted. */
  method DeleteRole(db: Db, id: Id) returns (r: Result<()>)
    modifies db`roles, db`cadets
    ensures r.Err? <==> id !in old(db.roles)
    ensures r.Err? ==> r.error == ResourceNotFound && db.roles == old(db.roles) && db.cadets == old(db.cadets)
    ensures r.Ok? ==> db.roles == old(db.roles) - {id} && db.cadets == StripRole(old(db.cadets), id)
  {
    if id !in db.roles {
      return Err(ResourceNotFound);
    }
    var holders := set c | c in db.cadets && id in db.cadets[c].roles;
    var todo := holders;
    while todo != {}
      invariant todo <= holders
      invariant db.cadets.Keys == old(db.cadets).Keys && db.roles == old(db.roles)
      invariant forall c :: c in db.cadets ==>
        db.cadets[c] == if c in holders && c !in todo then WithoutRole(old(db.cadets)[c], id) else old(db.cadets)[c]
      decreases todo
    {
      var c :| c in todo;
      db.cadets := db.cadets[c := WithoutRole(db.cadets[c], id)];
      todo := todo - {c};
    }
    db.roles := db.roles - {id};
    r := Ok(());
  }

  /** After the strip no cadet refers to the role, every other role
      membership is as it was, and no cadet is added or removed. */
  lemma StripRoleLeavesNoReference(cadets: map<Id, Cadet>, id: Id)
    ensures StripRole(cadets, id).Keys == cadets.Keys
    ensures forall c :: c in cadets ==> id !in StripRole(cadets, id)[c].roles
    ensures forall c, other :: c in cadets && other != id ==>
      (other in StripRole(cadets, id)[c].roles <==> other in cadets[c].roles)
    ensures forall c :: c in cadets ==>
      StripRole(cadets, id)[c].(roles := cadets[c].roles) == cadets[c]
  {
  }

  /** Deleting a role keeps every cadet's authorities apart from what the
      deleted role granted: the authorities computed over the new tables are
      those over the old tables without the role. */
  lemma {:induction false} DeleteRoleAuthorities(cadets: map<Id, Cadet>, roles: Roles, perms: map<Id, Permission>, id: Id, c: Id)
    requires c in cadets
    ensures Authorities(StripRole(cadets, id)[c].roles, roles - {id}, perms) ==
      Authorities(cadets[c].roles - {id}, roles, perms)
  {
    var held := cadets[c].roles - {id};
    assert StripRole(cadets, id)[c].roles == held;
    forall r | r in held
      ensures RoleAuthorities(r, roles - {id}, perms) == RoleAuthorities(r, roles, perms)
    {
    }
    var lhs := Authorities(held, roles - {id}, perms);
    var rhs := Authorities(held, roles, perms);
    forall a | a in lhs ensures a in rhs {
      var r :| r in held && a in RoleAuthorities(r, roles - {id}, perms);
    }
    forall a | a in rhs ensures a in lhs {
      var r :| r in held && a in RoleAuthorities(r, roles, perms);
    }
  }
}
