/** Principals, roles and permissions, and a principal's effective authorities
    (Cadet.getAuthorities): the names of its roles together with the names of
    every permission those roles carry. Every ownership-or-override gate of the
    services is built on it. */
module Authority {
  import opened Errors

  type Id = nat

  datatype Permission = Permission(name: string, description: Option<string>)

  datatype Role = Role(name: string, description: Option<string>, permissions: set<Id>)

  /** A cadet (principal). `roles` holds role ids; the role and permission
      tables are passed alongside wherever names are needed. */
  datatype Cadet = Cadet(
    username: string,
    email: string,
    passwordHash: string,
    fullName: Option<string>,
    roles: set<Id>,
    giteaUserId: Option<int>,
    createdAt: Instant,
    updatedAt: Instant)

  /** The names of the permissions in `ps` that exist in the permission table. */
  function PermissionNames(ps: set<Id>, perms: map<Id, Permission>): set<string>
  {
    set p | p in ps && p in perms :: perms[p].name
  }

  /** What one role contributes: its own name and its permissions' names. */
  function RoleAuthorities(r: Id, roles: map<Id, Role>, perms: map<Id, Permission>): set<string>
  {
    if r in roles then {roles[r].name} + PermissionNames(roles[r].permissions, perms) else {}
  }

  /** The specification of getAuthorities: the union over the principal's roles. */
  function Authorities(roleIds: set<Id>, roles: map<Id, Role>, perms: map<Id, Permission>): set<string>
  {
    set r, a | r in roleIds && a in RoleAuthorities(r, roles, perms) :: a
  }

  lemma AuthoritiesAddRole(done: set<Id>, r: Id, roles: map<Id, Role>, perms: map<Id, Permission>)
    ensures Authorities(done + {r}, roles, perms) == Authorities(done, roles, perms) + RoleAuthorities(r, roles, perms)
  {
    var lhs := Authorities(done + {r}, roles, perms);
    var rhs := Authorities(done, roles, perms) + RoleAuthorities(r, roles, perms);
    forall a | a in rhs ensures a in lhs {
      if a !in RoleAuthorities(r, roles, perms) {
        var r' :| r' in done && a in RoleAuthorities(r', roles, perms);
      }
    }
  }

  /** Cadet.getAuthorities: fills a set role by role, and inside each role
      permission by permission. */
  method GetAuthorities(roleIds: set<Id>, roles: map<Id, Role>, perms: map<Id, Permission>)
    returns (authorities: set<string>)
    ensures authorities == Authorities(roleIds, roles, perms)
  {
    authorities := {};
    var todo := roleIds;
    while todo != {}
      invariant todo <= roleIds
      invariant authorities == Authorities(roleIds - todo, roles, perms)
      decreases todo
    {
      var r :| r in todo;
      ghost var before := authorities;
      if r in roles {
        authorities := authorities + {roles[r].name};
        var left := roles[r].permissions;
        while left != {}
          invariant left <= roles[r].permissions
          invariant authorities == before + {roles[r].name}
                      + PermissionNames(roles[r].permissions - left, perms)
          decreases left
        {
          var p :| p in left;
          if p in perms {
            authorities := authorities + {perms[p].name};
          }
          left := left - {p};
        }
      }
      AuthoritiesAddRole(roleIds - todo, r, roles, perms);
      assert roleIds - (todo - {r}) == (roleIds - todo) + {r};
      todo := todo - {r};
    }
  }

  /** hasAuthority: the principal holds the named authority. */
  predicate HasAuthority(roleIds: set<Id>, roles: map<Id, Role>, perms: map<Id, Permission>, name: string)
  {
    name in Authorities(roleIds, roles, perms)
  }

  /** The ownership-or-override gate shared by every mutating service call:
      the acting cadet owns the resource, or holds the named override. */
  predicate MayMutate(ownerId: Id, actorId: Id, actorAuthorities: set<string>, override: string)
  {
    ownerId == actorId || override in actorAuthorities
  }

  /** The gate as the services evaluate it: the resource's owner is
      dereferenced first, so an ownerless resource fails with a null
      reference whatever the actor holds. */
  function Gate(owner: Option<Id>, actorId: Id, actorAuthorities: set<string>, override: string): (r: Result<()>)
    ensures r.Ok? <==> owner.Some? && MayMutate(owner.value, actorId, actorAuthorities, override)
    ensures r == Err(NullReference) <==> owner.None?
    ensures r == Err(UnauthorizedAccess) <==> owner.Some? && !MayMutate(owner.value, actorId, actorAuthorities, override)
  {
    if owner.None? then Err(NullReference)
    else if owner.value != actorId && override !in actorAuthorities then Err(UnauthorizedAccess)
    else Ok(())
  }

  /** A principal with no roles has no authorities. */
  lemma {:induction false} NoRolesNoAuthorities(roles: map<Id, Role>, perms: map<Id, Permission>)
    ensures Authorities({}, roles, perms) == {}
  {
  }

  /** An authority is held exactly when some held role is named so, or some held
      role carries a permission so named. */
  lemma AuthorityWitness(roleIds: set<Id>, roles: map<Id, Role>, perms: map<Id, Permission>, a: string)
    ensures a in Authorities(roleIds, roles, perms) <==>
      exists r :: r in roleIds && r in roles &&
        (a == roles[r].name || exists p :: p in roles[r].permissions && p in perms && perms[p].name == a)
  {
    if a in Authorities(roleIds, roles, perms) {
      var r :| r in roleIds && a in RoleAuthorities(r, roles, perms);
      if a != roles[r].name {
        var p :| p in roles[r].permissions && p in perms && perms[p].name == a;
      }
    } else {
      forall r | r in roleIds && r in roles
        ensures a != roles[r].name && forall p :: p in roles[r].permissions && p in perms ==> perms[p].name != a
      {
        assert a !in RoleAuthorities(r, roles, perms);
      }
    }
  }

  /** Adding roles never removes an authority. */
  lemma AuthoritiesMonotone(a: set<Id>, b: set<Id>, roles: map<Id, Role>, perms: map<Id, Permission>)
    requires a <= b
    ensures Authorities(a, roles, perms) <= Authorities(b, roles, perms)
  {
  }

  /** Granting a role adds exactly its name and its permissions' names; a name
      already held is not duplicated, since authorities form a set. */
  lemma GrantRole(held: set<Id>, r: Id, roles: map<Id, Role>, perms: map<Id, Permission>)
    requires r in roles
    ensures Authorities(held + {r}, roles, perms)
      == Authorities(held, roles, perms) + {roles[r].name} + PermissionNames(roles[r].permissions, perms)
  {
    AuthoritiesAddRole(held, r, roles, perms);
  }

  /** The four account-status flags of a cadet: non-expired, non-locked,
      credentials non-expired, enabled. */
  datatype AccountStatus = AccountStatus(nonExpired: bool, nonLocked: bool, credentialsNonExpired: bool, enabled: bool)

  function AccountStatusOf(c: Cadet): (s: AccountStatus)
    ensures s.nonExpired && s.nonLocked && s.credentialsNonExpired && s.enabled
  {
    AccountStatus(true, true, true, true)
  }
}
