/** StarSystemService: star systems are uniquely named groups of missions.
    Creating one makes the caller its owner; editing and deleting it are
    gated by "owner, or holds the override authority". */
module StarSystemService {
  import opened Errors
  import opened Authority
  import opened Entities
  import opened MissionRanks
  import opened Store
  import opened MissionService

  const EditAnySystem := "starsystem:edit_any"
  const DeleteAnySystem := "starsystem:delete_any"

  type Systems = map<Id, StarSystem>

  /** The fields a create or update request carries. */
  datatype SystemRequest = SystemRequest(name: string, description: Option<string>, iconUrl: Option<string>)

  datatype SystemResponse = SystemResponse(
    id: Id,
    name: string,
    description: Option<string>,
    iconUrl: Option<string>,
    createdAt: Instant,
    updatedAt: Instant)

  /** mapToResponse: every field but the owner. */
  function SystemToResponse(id: Id, s: StarSystem): (r: SystemResponse)
    ensures r.id == id && r.name == s.name && r.description == s.description && r.iconUrl == s.iconUrl
  {
    SystemResponse(id, s.name, s.description, s.iconUrl, s.createdAt, s.updatedAt)
  }

  /** findByName(name).isPresent(). */
  predicate SystemNameTaken(systems: Systems, name: string)
  {
    exists id :: id in systems && systems[id].name == name
  }

  /** The unique constraint on the name column. */
  predicate SystemNamesUnique(systems: Systems)
  {
    forall a, b :: a in systems && b in systems && a != b ==> systems[a].name != systems[b].name
  }

  // ---------------------------------------------------------------- createStarSystem

  /** The specification of createStarSystem: the caller must be a stored
      cadet, the name must be free, and the new system is owned by the caller
      and stamped now. */
  ghost function CreateSystemSpec(systems: Systems, cadets: map<Id, Cadet>, username: string,
    req: SystemRequest, newId: Id, now: Instant): Outcome<Systems, SystemResponse>
    requires KeysUnique(cadets)
  {
    var actor := UserByName(cadets, username);
    if actor.None? then Outcome(systems, Err(ResourceNotFound))
    else if SystemNameTaken(systems, req.name) then Outcome(systems, Err(ResourceConflict))
    else
      var s := StarSystem(req.name, req.description, req.iconUrl, actor, now, now);
      Outcome(systems[newId := s], Ok(SystemToResponse(newId, s)))
  }

  method CreateStarSystem(db: Db, caller: Caller, req: SystemRequest, newId: Id, now: Instant)
    returns (r: Result<SystemResponse>)
    requires KeysUnique(db.cadets) && newId !in db.starSystems
    modifies db`starSystems
    ensures db.starSystems == CreateSystemSpec(old(db.starSystems), old(db.cadets), caller.username, req, newId, now).state
    ensures r == CreateSystemSpec(old(db.starSystems), old(db.cadets), caller.username, req, newId, now).result
  {
    var actor := db.FindByUsername(caller.username);
    if actor.None? {
      return Err(ResourceNotFound);
    }
    if SystemNameTaken(db.starSystems, req.name) {
      return Err(ResourceConflict);
    }
    var s := StarSystem(req.name, req.description, req.iconUrl, actor, now, now);
    db.starSystems := db.starSystems[newId := s];
    r := Ok(SystemToResponse(newId, s));
  }

  /** A create succeeds exactly when the caller is known and the name is
      free; then exactly one system is added, owned by the caller, and names
      stay unique. A refused create saves nothing. */
  lemma CreateSystemCorrect(systems: Systems, cadets: map<Id, Cadet>, username: string,
    req: SystemRequest, newId: Id, now: Instant)
    requires KeysUnique(cadets) && newId !in systems && SystemNamesUnique(systems)
    ensures var e := CreateSystemSpec(systems, cadets, username, req, newId, now);
      e.result.Ok? <==> UserByName(cadets, username).Some? && !SystemNameTaken(systems, req.name)
    ensures var e := CreateSystemSpec(systems, cadets, username, req, newId, now);
      e.result.Err? ==> e.state == systems
    ensures var e := CreateSystemSpec(systems, cadets, username, req, newId, now);
      e.result.Ok? ==>
        e.state.Keys == systems.Keys + {newId} && e.state[newId].owner == UserByName(cadets, username) &&
        e.state[newId].name == req.name && SystemNamesUnique(e.state)
  {
  }

  // ---------------------------------------------------------------- deleteStarSystem

  /** The specification of deleteStarSystem: the caller, then the system,
      then the gate; then the delete by id, which the database refuses
      while a mission still belongs to the system (missions do not
      cascade). Nothing else changes. */
  ghost function DeleteSystemSpec(systems: Systems, missions: map<Id, Mission>, cadets: map<Id, Cadet>,
    roles: map<Id, Role>, perms: map<Id, Permission>, username: string, id: Id): Outcome<Systems, ()>
    requires KeysUnique(cadets)
  {
    var actor := UserByName(cadets, username);
    if actor.None? then Outcome(systems, Err(ResourceNotFound))
    else if id !in systems then Outcome(systems, Err(ResourceNotFound))
    else
      var gate := Gate(systems[id].owner, actor.value, Authorities(cadets[actor.value].roles, roles, perms), DeleteAnySystem);
      if gate.Err? then Outcome(systems, Err(gate.error))
      else if SystemHasMissions(missions, id) then Outcome(systems, Err(DataIntegrity))
      else Outcome(systems - {id}, Ok(()))
  }

  method DeleteStarSystem(db: Db, caller: Caller, id: Id) returns (r: Result<()>)
    requires KeysUnique(db.cadets)
    modifies db`starSystems
    ensures db.starSystems == DeleteSystemSpec(old(db.starSystems), old(db.missions), old(db.cadets), old(db.roles), old(db.permissions), caller.username, id).state
    ensures r == DeleteSystemSpec(old(db.starSystems), old(db.missions), old(db.cadets), old(db.roles), old(db.permissions), caller.username, id).result
  {
    var actor := db.FindByUsername(caller.username);
    if actor.None? {
      return Err(ResourceNotFound);
    }
    if id !in db.starSystems {
      return Err(ResourceNotFound);
    }
    var authorities := db.AuthoritiesOf(actor.value);
    var gate := Gate(db.starSystems[id].owner, actor.value, authorities, DeleteAnySystem);
    if gate.Err? {
      return Err(gate.error);
    }
    if SystemHasMissions(db.missions, id) {
      return Err(DataIntegrity);
    }
    db.starSystems := db.starSystems - {id};
    r := Ok(());
  }

  /** Only the owner, or a holder of starsystem:delete_any, can delete a
      system, and only once no mission belongs to it: a permitted delete of
      a system with missions fails with a 500 and leaves it in place. A
      system without an owner cannot be deleted at all (the owner
      dereference fails with a 500). */
  lemma DeleteSystemGate(systems: Systems, missions: map<Id, Mission>, cadets: map<Id, Cadet>,
    roles: map<Id, Role>, perms: map<Id, Permission>, username: string, id: Id)
    requires KeysUnique(cadets)
    ensures var e := DeleteSystemSpec(systems, missions, cadets, roles, perms, username, id);
      var actor := UserByName(cadets, username);
      e.result.Ok? <==>
        actor.Some? && id in systems && systems[id].owner.Some? &&
        MayMutate(systems[id].owner.value, actor.value, Authorities(cadets[actor.value].roles, roles, perms), DeleteAnySystem) &&
        forall m :: m in missions ==> missions[m].starSystem != id
    ensures var e := DeleteSystemSpec(systems, missions, cadets, roles, perms, username, id);
      (e.result.Ok? ==> e.state == systems - {id}) && (e.result.Err? ==> e.state == systems)
    ensures var e := DeleteSystemSpec(systems, missions, cadets, roles, perms, username, id);
      UserByName(cadets, username).Some? && id in systems && systems[id].owner.None? ==>
        e.result == Err(NullReference) && StatusOf(NullReference) == 500
    ensures var e := DeleteSystemSpec(systems, missions, cadets, roles, perms, username, id);
      var actor := UserByName(cadets, username);
      actor.Some? && id in systems && systems[id].owner.Some? &&
      MayMutate(systems[id].owner.value, actor.value, Authorities(cadets[actor.value].roles, roles, perms), DeleteAnySystem) &&
      SystemHasMissions(missions, id) ==>
        e.result == Err(DataIntegrity) && StatusOf(DataIntegrity) == 500
  {
  }

  /** After a successful delete no mission points at a missing system that
      did not already point at one. */
  lemma DeleteSystemLeavesNoOrphans(systems: Systems, missions: map<Id, Mission>, cadets: map<Id, Cadet>,
    roles: map<Id, Role>, perms: map<Id, Permission>, username: string, id: Id)
    requires KeysUnique(cadets)
    requires forall m :: m in missions ==> missions[m].starSystem in systems
    ensures var e := DeleteSystemSpec(systems, missions, cadets, roles, perms, username, id);
      forall m :: m in missions ==> missions[m].starSystem in e.state
  {
  }

  // ---------------------------------------------------------------- updateStarSystem

  /** The fields an update overwrites: name, description, icon, update time. */
  function EditedSystem(s: StarSystem, req: SystemRequest, now: Instant): (t: StarSystem)
    ensures t.owner == s.owner && t.createdAt == s.createdAt
  {
    s.(name := req.name, description := req.description, iconUrl := req.iconUrl, updatedAt := now)
  }

  /** The specification of updateStarSystem: the caller, the system, the
      gate, then a name conflict, looked for only when the name changes. */
  ghost function UpdateSystemSpec(systems: Systems, cadets: map<Id, Cadet>, roles: map<Id, Role>,
    perms: map<Id, Permission>, username: string, id: Id, req: SystemRequest, now: Instant): Outcome<Systems, SystemResponse>
    requires KeysUnique(cadets)
  {
    var actor := UserByName(cadets, username);
    if actor.None? then Outcome(systems, Err(ResourceNotFound))
    else if id !in systems then Outcome(systems, Err(ResourceNotFound))
    else
      var gate := Gate(systems[id].owner, actor.value, Authorities(cadets[actor.value].roles, roles, perms), EditAnySystem);
      if gate.Err? then Outcome(systems, Err(gate.error))
      else if systems[id].name != req.name && SystemNameTaken(systems, req.name) then Outcome(systems, Err(ResourceConflict))
      else
        var t := EditedSystem(systems[id], req, now);
        Outcome(systems[id := t], Ok(SystemToResponse(id, t)))
  }

  method UpdateStarSystem(db: Db, caller: Caller, id: Id, req: SystemRequest, now: Instant)
    returns (r: Result<SystemResponse>)
    requires KeysUnique(db.cadets)
    modifies db`starSystems
    ensures db.starSystems == UpdateSystemSpec(old(db.starSystems), old(db.cadets), old(db.roles), old(db.permissions), caller.username, id, req, now).state
    ensures r == UpdateSystemSpec(old(db.starSystems), old(db.cadets), old(db.roles), old(db.permissions), caller.username, id, req, now).result
  {
    var actor := db.FindByUsername(caller.username);
    if actor.None? {
      return Err(ResourceNotFound);
    }
    if id !in db.starSystems {
      return Err(ResourceNotFound);
    }
    var authorities := db.AuthoritiesOf(actor.value);
    var gate := Gate(db.starSystems[id].owner, actor.value, authorities, EditAnySystem);
    if gate.Err? {
      return Err(gate.error);
    }
    if db.starSystems[id].name != req.name && SystemNameTaken(db.starSystems, req.name) {
      return Err(ResourceConflict);
    }
    var t := EditedSystem(db.starSystems[id], req, now);
    db.starSystems := db.starSystems[id := t];
    r := Ok(SystemToResponse(id, t));
  }

  /** An update keeps names unique, touches only the one system, and keeps
      its owner and creation time; keeping the same name is never a
      conflict. */
  lemma UpdateSystemCorrect(systems: Systems, cadets: map<Id, Cadet>, roles: map<Id, Role>,
    perms: map<Id, Permission>, username: string, id: Id, req: SystemRequest, now: Instant)
    requires KeysUnique(cadets) && SystemNamesUnique(systems)
    ensures var e := UpdateSystemSpec(systems, cadets, roles, perms, username, id, req, now);
      SystemNamesUnique(e.state) && e.state.Keys == systems.Keys
    ensures var e := UpdateSystemSpec(systems, cadets, roles, perms, username, id, req, now);
      e.result.Ok? ==>
        e.state[id].name == req.name && e.state[id].owner == systems[id].owner &&
        e.state[id].createdAt == systems[id].createdAt && e.state[id].updatedAt == now &&
        forall other :: other in systems && other != id ==> e.state[other] == systems[other]
    ensures var e := UpdateSystemSpec(systems, cadets, roles, perms, username, id, req, now);
      id in systems && req.name == systems[id].name ==> e.result != Err(ResourceConflict)
  {
  }

  /** The gate comes before the name check: a caller who may not edit the
      system learns nothing about which names are taken. */
  lemma UpdateSystemGateFirst(systems: Systems, cadets: map<Id, Cadet>, roles: map<Id, Role>,
    perms: map<Id, Permission>, username: string, id: Id, req: SystemRequest, now: Instant)
    requires KeysUnique(cadets)
    requires UserByName(cadets, username).Some? && id in systems && systems[id].owner.Some?
    requires var actor := UserByName(cadets, username).value;
      !MayMutate(systems[id].owner.value, actor, Authorities(cadets[actor].roles, roles, perms), EditAnySystem)
    ensures UpdateSystemSpec(systems, cadets, roles, perms, username, id, req, now) == Outcome(systems, Err(UnauthorizedAccess))
  {
  }

  // ---------------------------------------------------------------- queries

  /** getSystemsByCurrentUser: the systems whose owner is the caller. */
  method SystemsByCurrentUser(db: Db, caller: Caller) returns (r: Result<set<SystemResponse>>)
    requires KeysUnique(db.cadets)
    ensures r.Err? <==> UserByName(db.cadets, caller.username).None?
    ensures r.Err? ==> r.error == ResourceNotFound
    ensures r.Ok? ==> forall resp :: resp in r.value <==>
      resp.id in db.starSystems && db.starSystems[resp.id].owner == UserByName(db.cadets, caller.username) &&
      resp == SystemToResponse(resp.id, db.starSystems[resp.id])
  {
    var actor := db.FindByUsername(caller.username);
    if actor.None? {
      return Err(ResourceNotFound);
    }
    r := Ok(set id | id in db.starSystems && db.starSystems[id].owner == actor :: SystemToResponse(id, db.starSystems[id]));
  }

  datatype SystemWithMissions = SystemWithMissions(system: SystemResponse, missions: seq<MissionResponse>)

  /** getStarSystemWithMissions: the system is looked up first, then its
      missions are listed. */
  function StarSystemWithMissions(systems: Systems, missions: Missions, cadets: map<Id, Cadet>,
    id: Id, admin: bool): (r: Result<SystemWithMissions>)
    ensures r.Err? <==> id !in systems
    ensures r.Err? ==> r.error == ResourceNotFound
    ensures r.Ok? ==> r.value.system == SystemToResponse(id, systems[id])
  {
    if id !in systems then Err(ResourceNotFound)
    else Ok(SystemWithMissions(SystemToResponse(id, systems[id]), MissionsBySystem(missions, cadets, id, admin)))
  }

  /** The missions of the answer are the system's missions, each once, in
      ascending rank. */
  lemma StarSystemWithMissionsListsRanked(systems: Systems, missions: Missions, cadets: map<Id, Cadet>,
    id: Id, admin: bool)
    ensures var r := StarSystemWithMissions(systems, missions, cadets, id, admin);
      r.Ok? ==>
        (forall m :: m in r.value.missions ==> m.id in missions && m.starSystemId == id) &&
        (forall mid :: mid in missions && missions[mid].starSystem == id ==>
          exists m :: m in r.value.missions && m.id == mid) &&
        (forall i :: 0 < i < |r.value.missions| ==>
          r.value.missions[i - 1].orderInSystem <= r.value.missions[i].orderInSystem)
  {
    MissionsBySystemCorrect(missions, cadets, id, admin);
  }
}
