/** DataInitializer: at start-up, seven permissions and two roles are
    found or created. A permission or role that already exists (by name) is
    reused unchanged, so seeding twice leaves the tables as seeding once. */
module DataInitializer {
  import opened Errors
  import opened Authority
  import opened Store
  import opened RoleService

  type Permissions = map<Id, Permission>

  /** The seeded permissions, by name and description, in creation order. */
  const Seeds: seq<(string, string)> := [
    ("mission:read", "Küldetések megtekintés"),
    ("mission:start", "Küldetés indítása"),
    ("mission:create", "Küldetés létrehozása"),
    ("user:delete", "Felhasználó törlése"),
    ("user:create", "Felhasználó létrehozása"),
    ("starsystem:read", "Csillagrendszer megtekintés"),
    ("starsystem:create", "Csillagrendszer létrehozása")]

  const CadetRoleName := "ROLE_CADET"
  const AdminRoleName := "ROLE_ADMIN"

  /** The names of the seeded permissions. */
  function SeedNames(): (names: set<string>)
    ensures |Seeds| == 7 && forall i :: 0 <= i < |Seeds| ==> Seeds[i].0 in names
  {
    set i | 0 <= i < |Seeds| :: Seeds[i].0
  }

  predicate PermissionNamesUnique(perms: Permissions)
  {
    forall a, b :: a in perms && b in perms && a != b ==> perms[a].name != perms[b].name
  }

  predicate PermissionNameTaken(perms: Permissions, name: string)
  {
    exists p :: p in perms && perms[p].name == name
  }

  /** Ids not yet in use, pairwise distinct: what the generated UUIDs are. */
  predicate FreshIds(ids: seq<Id>, used: set<Id>)
  {
    (forall i :: 0 <= i < |ids| ==> ids[i] !in used) &&
    forall i, j :: 0 <= i < j < |ids| ==> ids[i] != ids[j]
  }

  // ---------------------------------------------------------------- find or create

  /** createPermissionIfNotFound: the permission of that name if there is
      one, else a new one under the fresh id. */
  ghost function EnsurePermission(perms: Permissions, name: string, description: string, newId: Id): (r: (Permissions, Id))
    requires newId !in perms
    ensures r.0.Keys <= perms.Keys + {newId}
  {
    if PermissionNameTaken(perms, name) then
      var p :| p in perms && perms[p].name == name; (perms, p)
    else (perms[newId := Permission(name, Some(description))], newId)
  }

  /** The permission resolved carries the name; a present name changes
      nothing; an absent one adds exactly one permission. */
  lemma EnsurePermissionFacts(perms: Permissions, name: string, description: string, newId: Id)
    requires newId !in perms
    ensures var r := EnsurePermission(perms, name, description, newId);
      r.1 in r.0 && r.0[r.1].name == name &&
      (forall p :: p in perms ==> p in r.0 && r.0[p] == perms[p]) &&
      (PermissionNameTaken(perms, name) ==> r.0 == perms) &&
      (!PermissionNameTaken(perms, name) ==> r.0 == perms[newId := Permission(name, Some(description))] && r.1 == newId)
  {
  }

  /** Finding or creating a permission keeps names unique. */
  lemma EnsurePermissionKeepsUnique(perms: Permissions, name: string, description: string, newId: Id)
    requires PermissionNamesUnique(perms) && newId !in perms
    ensures PermissionNamesUnique(EnsurePermission(perms, name, description, newId).0)
  {
  }

  method CreatePermissionIfNotFound(db: Db, name: string, description: string, newId: Id) returns (id: Id)
    requires PermissionNamesUnique(db.permissions) && newId !in db.permissions
    modifies db`permissions
    ensures (db.permissions, id) == EnsurePermission(old(db.permissions), name, description, newId)
  {
    if PermissionNameTaken(db.permissions, name) {
      id :| id in db.permissions && db.permissions[id].name == name;
    } else {
      db.permissions := db.permissions[newId := Permission(name, Some(description))];
      id := newId;
    }
  }

  /** createRoleIfNotFound: an existing role of that name is returned as it
      is, whatever permissions the seed asks for. */
  ghost function EnsureRole(roles: Roles, name: string, permissions: set<Id>, newId: Id): (r: (Roles, Id))
    requires RoleNamesUnique(roles) && newId !in roles
    ensures RoleNamesUnique(r.0) && r.0.Keys <= roles.Keys + {newId}
  {
    if RoleNameTaken(roles, name) then
      var id :| id in roles && roles[id].name == name; (roles, id)
    else (roles[newId := Role(name, None, permissions)], newId)
  }

  /** The role resolved carries the name; a present name changes nothing,
      whatever permissions were asked for; an absent one adds exactly one
      role. */
  lemma EnsureRoleFacts(roles: Roles, name: string, permissions: set<Id>, newId: Id)
    requires RoleNamesUnique(roles) && newId !in roles
    ensures var r := EnsureRole(roles, name, permissions, newId);
      r.1 in r.0 && r.0[r.1].name == name &&
      (forall id :: id in roles ==> id in r.0 && r.0[id] == roles[id]) &&
      (RoleNameTaken(roles, name) ==> r.0 == roles) &&
      (!RoleNameTaken(roles, name) ==> r.0 == roles[newId := Role(name, None, permissions)] && r.1 == newId)
  {
  }

  method CreateRoleIfNotFound(db: Db, name: string, permissions: set<Id>, newId: Id) returns (id: Id)
    requires RoleNamesUnique(db.roles) && newId !in db.roles
    modifies db`roles
    ensures (db.roles, id) == EnsureRole(old(db.roles), name, permissions, newId)
  {
    if RoleNameTaken(db.roles, name) {
      id :| id in db.roles && db.roles[id].name == name;
    } else {
      db.roles := db.roles[newId := Role(name, None, permissions)];
      id := newId;
    }
  }

  // ---------------------------------------------------------------- the seed

  /** What seeding needs: one fresh id per seed. */
  predicate Seedable(perms: Permissions, seeds: seq<(string, string)>, ids: seq<Id>)
  {
    |ids| == |seeds| && FreshIds(ids, perms.Keys)
  }

  /** The permission table after the first k seeds, and the ids they
      resolved to. */
  ghost function SeedPermissions(perms: Permissions, seeds: seq<(string, string)>, ids: seq<Id>, k: nat): (r: (Permissions, seq<Id>))
    requires Seedable(perms, seeds, ids) && k <= |seeds|
    ensures |r.1| == k
    ensures forall i :: k <= i < |ids| ==> ids[i] !in r.0
  {
    if k == 0 then (perms, [])
    else
      var prev := SeedPermissions(perms, seeds, ids, k - 1);
      assert ids[k - 1] !in prev.0;
      var next := EnsurePermission(prev.0, seeds[k - 1].0, seeds[k - 1].1, ids[k - 1]);
      (next.0, prev.1 + [next.1])
  }

  /** The role table after both roles are found or created. */
  ghost function SeedRoles(roles: Roles, got: seq<Id>, roleIds: seq<Id>): Roles
    requires RoleNamesUnique(roles) && |got| == 7 && |roleIds| == 2 && FreshIds(roleIds, roles.Keys)
  {
    var cadet := EnsureRole(roles, CadetRoleName, {got[0], got[1]}, roleIds[0]);
    var all := {got[0], got[1], got[2], got[3], got[4], got[5], got[6]};
    var admin := EnsureRole(cadet.0, AdminRoleName, all, roleIds[1]);
    admin.0
  }

  /** One createPermissionIfNotFound call of the seed, the k-th. */
  method SeedPermission(db: Db, ghost p0: Permissions, seeds: seq<(string, string)>, permIds: seq<Id>, k: nat, got: seq<Id>)
    returns (id: Id)
    requires Seedable(p0, seeds, permIds) && PermissionNamesUnique(p0) && k < |seeds|
    requires (db.permissions, got) == SeedPermissions(p0, seeds, permIds, k)
    modifies db`permissions
    ensures (db.permissions, got + [id]) == SeedPermissions(p0, seeds, permIds, k + 1)
  {
    assert permIds[k] !in db.permissions;
    SeedKeepsNamesUnique(p0, seeds, permIds, k);
    id := CreatePermissionIfNotFound(db, seeds[k].0, seeds[k].1, permIds[k]);
  }

  /** The first half of run: the seven permissions, found or created in
      order; the result lists the ids they resolved to. */
  method SeedAllPermissions(db: Db, permIds: seq<Id>) returns (got: seq<Id>)
    requires PermissionNamesUnique(db.permissions)
    requires |permIds| == |Seeds| && FreshIds(permIds, db.permissions.Keys)
    modifies db`permissions
    ensures (db.permissions, got) == SeedPermissions(old(db.permissions), Seeds, permIds, |Seeds|)
  {
    got := [];
    var k := 0;
    var missionRead := SeedPermission(db, old(db.permissions), Seeds, permIds, k, got);
    got := got + [missionRead];
    k := k + 1;
    var missionStart := SeedPermission(db, old(db.permissions), Seeds, permIds, k, got);
    got := got + [missionStart];
    k := k + 1;
    var missionCreate := SeedPermission(db, old(db.permissions), Seeds, permIds, k, got);
    got := got + [missionCreate];
    k := k + 1;
    var userDelete := SeedPermission(db, old(db.permissions), Seeds, permIds, k, got);
    got := got + [userDelete];
    k := k + 1;
    var userCreate := SeedPermission(db, old(db.permissions), Seeds, permIds, k, got);
    got := got + [userCreate];
    k := k + 1;
    var starSystemRead := SeedPermission(db, old(db.permissions), Seeds, permIds, k, got);
    got := got + [starSystemRead];
    k := k + 1;
    var starSystemCreate := SeedPermission(db, old(db.permissions), Seeds, permIds, k, got);
    got := got + [starSystemCreate];
    k := k + 1;
  }

  /** run: the seven permissions in order, then ROLE_CADET with mission:read
      and mission:start, then ROLE_ADMIN with all seven. */
  method Run(db: Db, permIds: seq<Id>, roleIds: seq<Id>)
    requires PermissionNamesUnique(db.permissions) && RoleNamesUnique(db.roles)
    requires |permIds| == |Seeds| && FreshIds(permIds, db.permissions.Keys)
    requires |roleIds| == 2 && FreshIds(roleIds, db.roles.Keys)
    modifies db`permissions, db`roles
    ensures db.permissions == SeedPermissions(old(db.permissions), Seeds, permIds, |Seeds|).0
    ensures db.roles == SeedRoles(old(db.roles), SeedPermissions(old(db.permissions), Seeds, permIds, |Seeds|).1, roleIds)
  {
    var got := SeedAllPermissions(db, permIds);
    var cadetPermissions := {got[0], got[1]};
    var cadetRole := CreateRoleIfNotFound(db, CadetRoleName, cadetPermissions, roleIds[0]);
    assert roleIds[1] !in db.roles;
    var adminPermissions := {got[0], got[1], got[2], got[3], got[4], got[5], got[6]};
    var adminRole := CreateRoleIfNotFound(db, AdminRoleName, adminPermissions, roleIds[1]);
  }


  // ---------------------------------------------------------------- properties of the seed

  /** One step of the seed keeps every permission there was. */
  lemma SeedStepKeeps(perms: Permissions, seeds: seq<(string, string)>, ids: seq<Id>, k: nat)
    requires Seedable(perms, seeds, ids) && 0 < k <= |seeds|
    ensures var prev := SeedPermissions(perms, seeds, ids, k - 1).0;
      var r := SeedPermissions(perms, seeds, ids, k).0;
      forall p :: p in prev ==> p in r && r[p] == prev[p]
  {
    var prev := SeedPermissions(perms, seeds, ids, k - 1);
    EnsurePermissionFacts(prev.0, seeds[k - 1].0, seeds[k - 1].1, ids[k - 1]);
  }

  /** The k-th seed resolves to an id that carries its name, appended to
      the ids resolved before. */
  lemma SeedStepResolves(perms: Permissions, seeds: seq<(string, string)>, ids: seq<Id>, k: nat)
    requires Seedable(perms, seeds, ids) && 0 < k <= |seeds|
    ensures var prev := SeedPermissions(perms, seeds, ids, k - 1);
      var r := SeedPermissions(perms, seeds, ids, k);
      r.1 == prev.1 + [r.1[k - 1]] && r.1[k - 1] in r.0 && r.0[r.1[k - 1]].name == seeds[k - 1].0
  {
    var prev := SeedPermissions(perms, seeds, ids, k - 1);
    EnsurePermissionFacts(prev.0, seeds[k - 1].0, seeds[k - 1].1, ids[k - 1]);
  }

  /** The k-th seed adds at most its own record, and nothing when its name
      is taken. */
  lemma SeedStepAdds(perms: Permissions, seeds: seq<(string, string)>, ids: seq<Id>, k: nat)
    requires Seedable(perms, seeds, ids) && 0 < k <= |seeds|
    ensures var prev := SeedPermissions(perms, seeds, ids, k - 1).0;
      var r := SeedPermissions(perms, seeds, ids, k).0;
      (forall p :: p in r && p !in prev ==> r[p] == SeedRecord(seeds[k - 1])) &&
      (PermissionNameTaken(prev, seeds[k - 1].0) ==> r == prev)
  {
    var prev := SeedPermissions(perms, seeds, ids, k - 1);
    EnsurePermissionFacts(prev.0, seeds[k - 1].0, seeds[k - 1].1, ids[k - 1]);
  }

  /** Seeding keeps permission names unique. */
  lemma {:induction false} SeedKeepsNamesUnique(perms: Permissions, seeds: seq<(string, string)>, ids: seq<Id>, k: nat)
    requires Seedable(perms, seeds, ids) && PermissionNamesUnique(perms) && k <= |seeds|
    ensures PermissionNamesUnique(SeedPermissions(perms, seeds, ids, k).0)
  {
    if k > 0 {
      SeedKeepsNamesUnique(perms, seeds, ids, k - 1);
      var prev := SeedPermissions(perms, seeds, ids, k - 1);
      EnsurePermissionKeepsUnique(prev.0, seeds[k - 1].0, seeds[k - 1].1, ids[k - 1]);
    }
  }

  /** After k seeds, each resolved id carries its seed's name. */
  lemma {:induction false} SeedResolvesNames(perms: Permissions, seeds: seq<(string, string)>, ids: seq<Id>, k: nat)
    requires Seedable(perms, seeds, ids) && k <= |seeds|
    ensures var r := SeedPermissions(perms, seeds, ids, k);
      forall i :: 0 <= i < k ==> r.1[i] in r.0 && r.0[r.1[i]].name == seeds[i].0
  {
    if k > 0 {
      SeedResolvesNames(perms, seeds, ids, k - 1);
      SeedResolvesOneMore(perms, seeds, ids, k);
    }
  }

  /** If the first k - 1 seeds resolve to their names, so do the first k. */
  lemma SeedResolvesOneMore(perms: Permissions, seeds: seq<(string, string)>, ids: seq<Id>, k: nat)
    requires Seedable(perms, seeds, ids) && 0 < k <= |seeds|
    requires var r := SeedPermissions(perms, seeds, ids, k - 1);
      forall i :: 0 <= i < k - 1 ==> r.1[i] in r.0 && r.0[r.1[i]].name == seeds[i].0
    ensures var r := SeedPermissions(perms, seeds, ids, k);
      forall i :: 0 <= i < k ==> r.1[i] in r.0 && r.0[r.1[i]].name == seeds[i].0
  {
    SeedStepResolves(perms, seeds, ids, k);
    SeedStepKeeps(perms, seeds, ids, k);
    var prev := SeedPermissions(perms, seeds, ids, k - 1);
    var r := SeedPermissions(perms, seeds, ids, k);
    ResolvedStaysResolved(prev.0, prev.1, r.0, r.1, seeds);
  }

  /** Ids that resolved to their seeds' names still do once the table
      only grows, and so does one more that resolves to the next name. */
  lemma ResolvedStaysResolved(prev: Permissions, got: seq<Id>, next: Permissions, got2: seq<Id>, seeds: seq<(string, string)>)
    requires |got2| == |got| + 1 <= |seeds| && got2 == got + [got2[|got|]]
    requires forall i :: 0 <= i < |got| ==> got[i] in prev && prev[got[i]].name == seeds[i].0
    requires forall p :: p in prev ==> p in next && next[p] == prev[p]
    requires got2[|got|] in next && next[got2[|got|]].name == seeds[|got|].0
    ensures forall i :: 0 <= i < |got2| ==> got2[i] in next && next[got2[i]].name == seeds[i].0
  {
  }

  /** Seeding never changes or removes a permission that was there. */
  lemma {:induction false} SeedKeepsExisting(perms: Permissions, seeds: seq<(string, string)>, ids: seq<Id>, k: nat)
    requires Seedable(perms, seeds, ids) && k <= |seeds|
    ensures var r := SeedPermissions(perms, seeds, ids, k);
      forall p :: p in perms ==> p in r.0 && r.0[p] == perms[p]
  {
    if k > 0 {
      SeedKeepsExisting(perms, seeds, ids, k - 1);
      SeedStepKeeps(perms, seeds, ids, k);
    }
  }

  /** The permission record a seed creates. */
  function SeedRecord(seed: (string, string)): Permission
  {
    Permission(seed.0, Some(seed.1))
  }

  /** The records the first k seeds would create. */
  function RecordsUpTo(seeds: seq<(string, string)>, k: nat): (r: set<Permission>)
    requires k <= |seeds|
    ensures forall x :: x in r ==> exists i :: 0 <= i < k && x == SeedRecord(seeds[i])
  {
    if k == 0 then {} else RecordsUpTo(seeds, k - 1) + {SeedRecord(seeds[k - 1])}
  }

  /** Every permission seeding adds is the record of one of the seeds. */
  lemma {:induction false} SeedAddsOnlySeeds(perms: Permissions, seeds: seq<(string, string)>, ids: seq<Id>, k: nat)
    requires Seedable(perms, seeds, ids) && k <= |seeds|
    ensures var r := SeedPermissions(perms, seeds, ids, k);
      forall p :: p in r.0 && p !in perms ==> r.0[p] in RecordsUpTo(seeds, k)
  {
    if k > 0 {
      SeedAddsOnlySeeds(perms, seeds, ids, k - 1);
      SeedStepKeeps(perms, seeds, ids, k);
      SeedStepAdds(perms, seeds, ids, k);
      AddsStayRecorded(perms, SeedPermissions(perms, seeds, ids, k - 1).0, SeedPermissions(perms, seeds, ids, k).0,
        RecordsUpTo(seeds, k - 1), SeedRecord(seeds[k - 1]));
    }
  }

  /** One step of SeedAddsOnlySeeds on plain values: what the step keeps
      stays recorded, and what it adds is the step's own record. */
  lemma AddsStayRecorded(perms: Permissions, prev: Permissions, next: Permissions, recs: set<Permission>, rec: Permission)
    requires forall p :: p in prev && p !in perms ==> prev[p] in recs
    requires forall p :: p in prev ==> p in next && next[p] == prev[p]
    requires forall p :: p in next && p !in prev ==> next[p] == rec
    ensures forall p :: p in next && p !in perms ==> next[p] in recs + {rec}
  {
  }

  /** When every seed name is already present, seeding adds nothing. */
  lemma {:induction false} SeedFindsPresent(perms: Permissions, seeds: seq<(string, string)>, ids: seq<Id>, k: nat)
    requires Seedable(perms, seeds, ids) && k <= |seeds|
    requires forall i :: 0 <= i < k ==> PermissionNameTaken(perms, seeds[i].0)
    ensures SeedPermissions(perms, seeds, ids, k).0 == perms
  {
    if k > 0 {
      SeedFindsPresent(perms, seeds, ids, k - 1);
      EnsurePermissionFacts(perms, seeds[k - 1].0, seeds[k - 1].1, ids[k - 1]);
    }
  }

  /** Roles that were there are kept as they were. */
  lemma SeedRolesKeep(roles: Roles, got: seq<Id>, roleIds: seq<Id>)
    requires RoleNamesUnique(roles) && |got| == 7 && |roleIds| == 2 && FreshIds(roleIds, roles.Keys)
    ensures var r := SeedRoles(roles, got, roleIds);
      forall id :: id in roles ==> id in r && r[id] == roles[id]
  {
    var cadet := EnsureRole(roles, CadetRoleName, {got[0], got[1]}, roleIds[0]);
    EnsureRoleFacts(roles, CadetRoleName, {got[0], got[1]}, roleIds[0]);
    EnsureRoleFacts(cadet.0, AdminRoleName, {got[0], got[1], got[2], got[3], got[4], got[5], got[6]}, roleIds[1]);
  }

  /** A missing ROLE_CADET is created with the first two resolved ids. */
  lemma SeedRolesCadet(roles: Roles, got: seq<Id>, roleIds: seq<Id>)
    requires RoleNamesUnique(roles) && |got| == 7 && |roleIds| == 2 && FreshIds(roleIds, roles.Keys)
    requires !RoleNameTaken(roles, CadetRoleName)
    ensures var r := SeedRoles(roles, got, roleIds);
      roleIds[0] in r && r[roleIds[0]] == Role(CadetRoleName, None, {got[0], got[1]})
  {
    var cadet := EnsureRole(roles, CadetRoleName, {got[0], got[1]}, roleIds[0]);
    EnsureRoleFacts(roles, CadetRoleName, {got[0], got[1]}, roleIds[0]);
    EnsureRoleFacts(cadet.0, AdminRoleName, {got[0], got[1], got[2], got[3], got[4], got[5], got[6]}, roleIds[1]);
  }

  /** A missing ROLE_ADMIN is created with all seven resolved ids. */
  lemma SeedRolesAdmin(roles: Roles, got: seq<Id>, roleIds: seq<Id>)
    requires RoleNamesUnique(roles) && |got| == 7 && |roleIds| == 2 && FreshIds(roleIds, roles.Keys)
    requires !RoleNameTaken(roles, AdminRoleName)
    ensures var r := SeedRoles(roles, got, roleIds);
      roleIds[1] in r && r[roleIds[1]] == Role(AdminRoleName, None, {got[0], got[1], got[2], got[3], got[4], got[5], got[6]})
  {
    var cadet := EnsureRole(roles, CadetRoleName, {got[0], got[1]}, roleIds[0]);
    EnsureRoleFacts(roles, CadetRoleName, {got[0], got[1]}, roleIds[0]);
    assert !RoleNameTaken(cadet.0, AdminRoleName);
    EnsureRoleFacts(cadet.0, AdminRoleName, {got[0], got[1], got[2], got[3], got[4], got[5], got[6]}, roleIds[1]);
  }

  /** After seeding both role names are taken, and names stay unique. */
  lemma SeedRolesNamed(roles: Roles, got: seq<Id>, roleIds: seq<Id>)
    requires RoleNamesUnique(roles) && |got| == 7 && |roleIds| == 2 && FreshIds(roleIds, roles.Keys)
    ensures var r := SeedRoles(roles, got, roleIds);
      RoleNamesUnique(r) && RoleNameTaken(r, CadetRoleName) && RoleNameTaken(r, AdminRoleName)
  {
    var cadet := EnsureRole(roles, CadetRoleName, {got[0], got[1]}, roleIds[0]);
    EnsureRoleFacts(roles, CadetRoleName, {got[0], got[1]}, roleIds[0]);
    var admin := EnsureRole(cadet.0, AdminRoleName, {got[0], got[1], got[2], got[3], got[4], got[5], got[6]}, roleIds[1]);
    EnsureRoleFacts(cadet.0, AdminRoleName, {got[0], got[1], got[2], got[3], got[4], got[5], got[6]}, roleIds[1]);
    assert admin.0[cadet.1] == cadet.0[cadet.1];
  }

  /** With both role names present, role seeding changes nothing. */
  lemma SeedRolesPresent(roles: Roles, got: seq<Id>, roleIds: seq<Id>)
    requires RoleNamesUnique(roles) && |got| == 7 && |roleIds| == 2 && FreshIds(roleIds, roles.Keys)
    requires RoleNameTaken(roles, CadetRoleName) && RoleNameTaken(roles, AdminRoleName)
    ensures SeedRoles(roles, got, roleIds) == roles
  {
    EnsureRoleFacts(roles, CadetRoleName, {got[0], got[1]}, roleIds[0]);
    EnsureRoleFacts(roles, AdminRoleName, {got[0], got[1], got[2], got[3], got[4], got[5], got[6]}, roleIds[1]);
  }

  /** Ids that resolve to the given names. */
  predicate Resolves(perms: Permissions, got: seq<Id>, seeds: seq<(string, string)>)
  {
    |got| == |seeds| && forall i :: 0 <= i < |got| ==> got[i] in perms && perms[got[i]].name == seeds[i].0
  }

  /** Every name that resolves is taken. */
  lemma ResolvedNamesTaken(perms: Permissions, got: seq<Id>, seeds: seq<(string, string)>)
    requires Resolves(perms, got, seeds)
    ensures forall i :: 0 <= i < |seeds| ==> PermissionNameTaken(perms, seeds[i].0)
  {
    forall i | 0 <= i < |seeds| ensures PermissionNameTaken(perms, seeds[i].0) {
      assert perms[got[i]].name == seeds[i].0;
    }
  }

  /** The names granted by the first two resolved ids. */
  lemma FirstTwoNames(perms: Permissions, got: seq<Id>, seeds: seq<(string, string)>)
    requires |seeds| == 7 && Resolves(perms, got, seeds)
    ensures PermissionNames({got[0], got[1]}, perms) == {seeds[0].0, seeds[1].0}
  {
    assert perms[got[0]].name == seeds[0].0 && perms[got[1]].name == seeds[1].0;
  }

  /** The names granted by all seven resolved ids. */
  lemma AllSevenNames(perms: Permissions, got: seq<Id>, seeds: seq<(string, string)>)
    requires |seeds| == 7 && Resolves(perms, got, seeds)
    ensures PermissionNames({got[0], got[1], got[2], got[3], got[4], got[5], got[6]}, perms) ==
      set i | 0 <= i < |seeds| :: seeds[i].0
  {
    var all := {got[0], got[1], got[2], got[3], got[4], got[5], got[6]};
    var names := PermissionNames(all, perms);
    forall n | n in names ensures n in set i | 0 <= i < |seeds| :: seeds[i].0 {
      var q :| q in all && q in perms && perms[q].name == n;
      var i :| 0 <= i < 7 && got[i] == q;
      assert seeds[i].0 == n;
    }
    forall i | 0 <= i < |seeds| ensures seeds[i].0 in names {
      assert got[i] in all;
    }
  }

  /** The two roles for any seven seeds: ROLE_CADET, when created, grants
      the first two seeds' names, ROLE_ADMIN, when created, all seven; roles
      that were there are kept. */
  lemma SeedRolesGrant(perms: Permissions, roles: Roles, seeds: seq<(string, string)>, permIds: seq<Id>, roleIds: seq<Id>)
    requires PermissionNamesUnique(perms) && RoleNamesUnique(roles) && |seeds| == 7
    requires |permIds| == 7 && FreshIds(permIds, perms.Keys)
    requires |roleIds| == 2 && FreshIds(roleIds, roles.Keys)
    ensures var p := SeedPermissions(perms, seeds, permIds, |seeds|);
      var r := SeedRoles(roles, p.1, roleIds);
      (forall id :: id in roles ==> id in r && r[id] == roles[id]) &&
      (!RoleNameTaken(roles, CadetRoleName) ==>
        roleIds[0] in r && r[roleIds[0]].name == CadetRoleName &&
        PermissionNames(r[roleIds[0]].permissions, p.0) == {seeds[0].0, seeds[1].0}) &&
      (!RoleNameTaken(roles, AdminRoleName) ==>
        roleIds[1] in r && r[roleIds[1]].name == AdminRoleName &&
        PermissionNames(r[roleIds[1]].permissions, p.0) == set i | 0 <= i < |seeds| :: seeds[i].0)
  {
    var p := SeedPermissions(perms, seeds, permIds, |seeds|);
    SeedResolvesNames(perms, seeds, permIds, |seeds|);
    assert Resolves(p.0, p.1, seeds);
    SeedRolesKeep(roles, p.1, roleIds);
    if !RoleNameTaken(roles, CadetRoleName) {
      SeedRolesCadet(roles, p.1, roleIds);
      FirstTwoNames(p.0, p.1, seeds);
    }
    if !RoleNameTaken(roles, AdminRoleName) {
      SeedRolesAdmin(roles, p.1, roleIds);
      AllSevenNames(p.0, p.1, seeds);
    }
  }

  /** ROLE_CADET is seeded with exactly mission:read and mission:start, and
      ROLE_ADMIN with exactly the seven seeded names; a role that already
      existed is left as it was. */
  lemma SeededRoles(perms: Permissions, roles: Roles, permIds: seq<Id>, roleIds: seq<Id>)
    requires PermissionNamesUnique(perms) && RoleNamesUnique(roles)
    requires |permIds| == |Seeds| && FreshIds(permIds, perms.Keys)
    requires |roleIds| == 2 && FreshIds(roleIds, roles.Keys)
    ensures var p := SeedPermissions(perms, Seeds, permIds, |Seeds|);
      var r := SeedRoles(roles, p.1, roleIds);
      (forall id :: id in roles ==> id in r && r[id] == roles[id]) &&
      (!RoleNameTaken(roles, CadetRoleName) ==>
        PermissionNames(r[roleIds[0]].permissions, p.0) == {"mission:read", "mission:start"}) &&
      (!RoleNameTaken(roles, AdminRoleName) ==>
        PermissionNames(r[roleIds[1]].permissions, p.0) == SeedNames())
  {
    SeedRolesGrant(perms, roles, Seeds, permIds, roleIds);
    CadetSeedNames();
  }

  /** The first two seeds are the two permissions a cadet gets. */
  lemma CadetSeedNames()
    ensures {Seeds[0].0, Seeds[1].0} == {"mission:read", "mission:start"}
  {
    assert Seeds[0].0 == "mission:read" && Seeds[1].0 == "mission:start";
  }

  /** Seeding the permissions a second time changes nothing. */
  lemma SeedPermissionsIdempotent(perms: Permissions, seeds: seq<(string, string)>, ids: seq<Id>, ids2: seq<Id>, k: nat)
    requires Seedable(perms, seeds, ids) && k <= |seeds|
    requires |ids2| == |seeds| && FreshIds(ids2, SeedPermissions(perms, seeds, ids, k).0.Keys)
    ensures var p := SeedPermissions(perms, seeds, ids, k).0;
      SeedPermissions(p, seeds, ids2, k).0 == p
  {
    var p := SeedPermissions(perms, seeds, ids, k);
    SeedResolvesNames(perms, seeds, ids, k);
    assert Resolves(p.0, p.1, seeds[..k]);
    ResolvedNamesTaken(p.0, p.1, seeds[..k]);
    SeedFindsPresent(p.0, seeds, ids2, k);
  }

  /** Seeding the roles a second time changes nothing, whatever ids the
      permissions resolve to then. */
  lemma SeedRolesIdempotent(roles: Roles, got: seq<Id>, got2: seq<Id>, roleIds: seq<Id>, roleIds2: seq<Id>)
    requires RoleNamesUnique(roles) && |got| == 7 && |roleIds| == 2 && FreshIds(roleIds, roles.Keys)
    requires |got2| == 7 && |roleIds2| == 2 && FreshIds(roleIds2, SeedRoles(roles, got, roleIds).Keys)
    ensures var r := SeedRoles(roles, got, roleIds);
      SeedRoles(r, got2, roleIds2) == r
  {
    SeedRolesNamed(roles, got, roleIds);
    SeedRolesPresent(SeedRoles(roles, got, roleIds), got2, roleIds2);
  }

  /** Only seed names are ever added. */
  lemma OnlySeedNamesAdded(perms: Permissions, permIds: seq<Id>)
    requires PermissionNamesUnique(perms) && |permIds| == |Seeds| && FreshIds(permIds, perms.Keys)
    ensures var p := SeedPermissions(perms, Seeds, permIds, |Seeds|).0;
      forall id :: id in p && id !in perms ==> p[id].name in SeedNames()
  {
    var p := SeedPermissions(perms, Seeds, permIds, |Seeds|).0;
    SeedAddsOnlySeeds(perms, Seeds, permIds, |Seeds|);
    forall id | id in p && id !in perms ensures p[id].name in SeedNames() {
      var i :| 0 <= i < |Seeds| && p[id] == SeedRecord(Seeds[i]);
    }
  }

  /** None of the override authorities, nor mission:edit, mission:delete,
      starsystem:edit or starsystem:delete, is among the seeds. */
  lemma OverridesNotSeeded()
    ensures SeedNames() !! {"mission:edit_any", "mission:delete_any", "mission:create_any_system",
      "starsystem:edit_any", "starsystem:delete_any", "mission:edit", "mission:delete", "starsystem:edit",
      "starsystem:delete"}
  {
  }
}
