/** CadetService: administering cadets. A new cadet gets a Gitea account
    and exactly one role; the name and email conflicts are looked for
    before Gitea is asked for anything. Deleting a cadet tries to delete the
    Gitea account, removes the cadet's progress records, then the cadet.
    Editing changes only the fields the request supplies. */
module CadetService {
  import opened Errors
  import opened Authority
  import opened Gitea
  import opened Store
  import opened MissionService
  import opened RoleService
  import opened Entities

  /** The create/update request. Nothing validates it, so any field may be
      absent (null). The update ignores `username` and reads `email`,
      `password` and `role` only when present (and, for the last two, not
      blank). */
  datatype CadetRequest = CadetRequest(
    username: Option<string>,
    email: Option<string>,
    password: Option<string>,
    fullName: Option<string>,
    role: Option<string>)

  /** The role a name denotes (findByName); role names are unique. */
  ghost function RoleByName(roles: Roles, name: string): (r: Option<Id>)
    requires RoleNamesUnique(roles)
    ensures r.None? <==> !RoleNameTaken(roles, name)
    ensures r.Some? ==> r.value in roles && roles[r.value].name == name
  {
    if RoleNameTaken(roles, name) then
      var id :| id in roles && roles[id].name == name; Some(id)
    else None
  }

  method FindRoleByName(roles: Roles, name: string) returns (r: Option<Id>)
    requires RoleNamesUnique(roles)
    ensures r == RoleByName(roles, name)
  {
    if RoleNameTaken(roles, name) {
      var id :| id in roles && roles[id].name == name;
      r := Some(id);
    } else {
      r := None;
    }
  }

  /** Character.isWhitespace. */
  predicate IsWhitespace(c: char)
  {
    c == ' ' || ('\t' <= c <= '\r') || ('\U{001C}' <= c <= '\U{001F}') ||
    c == '\U{1680}' || ('\U{2000}' <= c <= '\U{2006}') || ('\U{2008}' <= c <= '\U{200A}') ||
    c == '\U{2028}' || c == '\U{2029}' || c == '\U{205F}' || c == '\U{3000}'
  }

  /** String.isBlank: empty or whitespace only. */
  predicate IsBlank(s: string)
  {
    forall i :: 0 <= i < |s| ==> IsWhitespace(s[i])
  }

  /** A present, non-blank string. */
  predicate Supplied(s: Option<string>)
  {
    s.Some? && !IsBlank(s.value)
  }

  // ---------------------------------------------------------------- createCadet

  /** The cadet createCadet saves: the encoded password, exactly the one
      requested role, and the Gitea user id. */
  function NewCadet(req: CadetRequest, username: string, email: string, password: string, encode: string -> string,
    role: Id, giteaId: int, now: Instant): (c: Cadet)
    ensures c.roles == {role} && c.giteaUserId == Some(giteaId) && c.username == username && c.email == email
    ensures c.passwordHash == encode(password) && c.fullName == req.fullName
  {
    Cadet(username, email, encode(password), req.fullName, {role}, Some(giteaId), now, now)
  }

  /** existsByUsername: no stored username is null, so an absent username is
      never taken. */
  predicate UsernameInUse(cadets: map<Id, Cadet>, username: Option<string>)
  {
    username.Some? && exists id :: id in cadets && cadets[id].username == username.value
  }

  /** existsByEmail: no stored email is null, so an absent email is never taken. */
  predicate EmailInUse(cadets: map<Id, Cadet>, email: Option<string>)
  {
    email.Some? && exists id :: id in cadets && cadets[id].email == email.value
  }

  /** The specification of createCadet: username conflict, then email
      conflict, both before anything is sent; then the Gitea user, with the
      request's email and password as they are; only then the role lookup,
      so an unknown or absent role fails after the remote account exists.
      After that a null password makes the encoder throw, and a null
      username or email is refused by its not-null column when the cadet is
      saved. */
  ghost function CreateCadetSpec(cadets: map<Id, Cadet>, roles: Roles, remote: Remote, req: CadetRequest,
    encode: string -> string, newId: Id, now: Instant): Effect<map<Id, Cadet>, Cadet>
    requires RoleNamesUnique(roles)
  {
    if UsernameInUse(cadets, req.username) then Effect(cadets, [], Err(ResourceConflict))
    else if EmailInUse(cadets, req.email) then Effect(cadets, [], Err(ResourceConflict))
    else
      var call := CreateUser(req.username, req.email, req.password);
      var gitea := CreateUserOutcome(remote.answer(call));
      if gitea.Err? then Effect(cadets, [call], Err(gitea.error))
      else
        var role := if req.role.Some? then RoleByName(roles, req.role.value) else None;
        if role.None? then Effect(cadets, [call], Err(ResourceNotFound))
        else if req.password.None? then Effect(cadets, [call], Err(IllegalArgument))
        else if req.username.None? || req.email.None? then Effect(cadets, [call], Err(DataIntegrity))
        else
          var c := NewCadet(req, req.username.value, req.email.value, req.password.value, encode, role.value,
            gitea.value, now);
          Effect(cadets[newId := c], [call], Ok(c))
  }

  method CreateCadet(db: Db, gw: Gateway, req: CadetRequest, encode: string -> string, newId: Id, now: Instant)
    returns (r: Result<Cadet>)
    requires RoleNamesUnique(db.roles) && newId !in db.cadets
    modifies db`cadets, gw
    ensures db.cadets == CreateCadetSpec(old(db.cadets), old(db.roles), gw.remote, req, encode, newId, now).state
    ensures gw.calls == old(gw.calls) + CreateCadetSpec(old(db.cadets), old(db.roles), gw.remote, req, encode, newId, now).calls
    ensures r == CreateCadetSpec(old(db.cadets), old(db.roles), gw.remote, req, encode, newId, now).result
  {
    if req.username.Some? && db.UsernameTaken(req.username.value) {
      assert gw.calls == old(gw.calls) + [];
      return Err(ResourceConflict);
    }
    if req.email.Some? && db.EmailTaken(req.email.value) {
      assert gw.calls == old(gw.calls) + [];
      return Err(ResourceConflict);
    }
    var giteaId := gw.CreateGiteaUser(req.username, req.email, req.password);
    if giteaId.Err? {
      return Err(giteaId.error);
    }
    var role: Option<Id> := None;
    if req.role.Some? {
      role := FindRoleByName(db.roles, req.role.value);
    }
    if role.None? {
      return Err(ResourceNotFound);
    }
    if req.password.None? {
      return Err(IllegalArgument);
    }
    if req.username.None? || req.email.None? {
      return Err(DataIntegrity);
    }
    var c := NewCadet(req, req.username.value, req.email.value, req.password.value, encode, role.value,
      giteaId.value, now);
    db.cadets := db.cadets[newId := c];
    r := Ok(c);
  }

  /** A taken username or email is refused before Gitea hears of the
      request; otherwise exactly one create-user request goes out, carrying
      the request's fields as given. An unknown or absent role is refused
      after the Gitea user was created, and so are an absent password and an
      absent username or email; an absent username is never a conflict, so
      its request reaches Gitea with a null username. A created cadet holds exactly the requested role, the
      encoded password and the returned Gitea id, and usernames and emails
      stay unique. */
  lemma CreateCadetCorrect(cadets: map<Id, Cadet>, roles: Roles, remote: Remote, req: CadetRequest,
    encode: string -> string, newId: Id, now: Instant)
    requires RoleNamesUnique(roles) && KeysUnique(cadets) && newId !in cadets
    ensures var e := CreateCadetSpec(cadets, roles, remote, req, encode, newId, now);
      (UsernameInUse(cadets, req.username) || EmailInUse(cadets, req.email)) <==>
        (e.calls == [] && e.result == Err(ResourceConflict))
    ensures var e := CreateCadetSpec(cadets, roles, remote, req, encode, newId, now);
      e.result.Err? ==> e.state == cadets
    ensures var e := CreateCadetSpec(cadets, roles, remote, req, encode, newId, now);
      e.calls != [] ==> e.calls == [CreateUser(req.username, req.email, req.password)]
    ensures var e := CreateCadetSpec(cadets, roles, remote, req, encode, newId, now);
      e.calls != [] && CreateUserOutcome(remote.answer(e.calls[0])).Ok? ==>
        (e.result.Ok? <==>
           req.role.Some? && RoleNameTaken(roles, req.role.value) && req.password.Some? &&
           req.username.Some? && req.email.Some?) &&
        ((req.role.None? || !RoleNameTaken(roles, req.role.value)) ==> e.result == Err(ResourceNotFound)) &&
        (req.role.Some? && RoleNameTaken(roles, req.role.value) && req.password.None? ==> e.result == Err(IllegalArgument)) &&
        (req.role.Some? && RoleNameTaken(roles, req.role.value) && req.password.Some? &&
          (req.username.None? || req.email.None?) ==>
          e.result == Err(DataIntegrity) && StatusOf(DataIntegrity) == 500)
    ensures var e := CreateCadetSpec(cadets, roles, remote, req, encode, newId, now);
      e.result.Ok? ==>
        e.state == cadets[newId := e.result.value] && KeysUnique(e.state) &&
        e.result.value.username == req.username.value && e.result.value.email == req.email.value &&
        e.result.value.roles == {RoleByName(roles, req.role.value).value} &&
        roles[RoleByName(roles, req.role.value).value].name == req.role.value &&
        e.result.value.passwordHash == encode(req.password.value) &&
        e.result.value.giteaUserId == Some(CreateUserOutcome(remote.answer(e.calls[0])).value)
  {
  }

  /** A request without a username is never refused as a conflict on the
      name: unless its email is taken, the Gitea user is requested with a
      null username, and the cadet is never saved. */
  lemma NullUsernameReachesGitea(cadets: map<Id, Cadet>, roles: Roles, remote: Remote, req: CadetRequest,
    encode: string -> string, newId: Id, now: Instant)
    requires RoleNamesUnique(roles) && req.username.None?
    ensures var e := CreateCadetSpec(cadets, roles, remote, req, encode, newId, now);
      e.result.Err? && e.state == cadets &&
      (!EmailInUse(cadets, req.email) ==> e.calls == [CreateUser(None, req.email, req.password)])
  {
  }

  /** A request that names only a taken username is refused with a conflict
      and sends nothing. */
  lemma UsernameOnlyRequestConflicts(cadets: map<Id, Cadet>, roles: Roles, remote: Remote, username: string,
    encode: string -> string, newId: Id, now: Instant)
    requires RoleNamesUnique(roles) && KeysUnique(cadets)
    requires exists id :: id in cadets && cadets[id].username == username
    ensures var e := CreateCadetSpec(cadets, roles, remote, CadetRequest(Some(username), None, None, None, None), encode,
      newId, now);
      e.calls == [] && e.result == Err(ResourceConflict) && e.state == cadets
  {
  }

  // ---------------------------------------------------------------- deleteCadet

  /** The progress table without the cadet's records (deleteAllByCadetId). */
  function DropProgressOf(progress: Progress, cadet: Id): (p: Progress)
    ensures forall k :: k in p <==> k in progress && k.0 != cadet
    ensures forall k :: k in p ==> p[k] == progress[k]
  {
    map k | k in progress && k.0 != cadet :: progress[k]
  }

  datatype Tables = Tables(cadets: map<Id, Cadet>, progress: Progress)

  /** The specification of deleteCadet: an unknown id deletes nothing and
      sends nothing; otherwise the Gitea user is deleted, its failure
      ignored, then the progress records and the cadet go. The database
      refuses to delete a cadet who still owns a mission or a star system,
      and the whole change, progress records included, is rolled back; the
      Gitea user is gone all the same. */
  function DeleteCadetSpec(cadets: map<Id, Cadet>, progress: Progress, missions: map<Id, Mission>,
    systems: map<Id, StarSystem>, id: Id): Effect<Tables, ()>
  {
    if id !in cadets then Effect(Tables(cadets, progress), [], Err(ResourceNotFound))
    else if OwnsAny(missions, systems, id) then
      Effect(Tables(cadets, progress), [DeleteUser(cadets[id].username)], Err(DataIntegrity))
    else Effect(Tables(cadets - {id}, DropProgressOf(progress, id)), [DeleteUser(cadets[id].username)], Ok(()))
  }

  method DeleteCadet(db: Db, gw: Gateway, id: Id) returns (r: Result<()>)
    modifies db`cadets, db`progress, gw
    ensures db.cadets == DeleteCadetSpec(old(db.cadets), old(db.progress), old(db.missions), old(db.starSystems), id).state.cadets
    ensures db.progress == DeleteCadetSpec(old(db.cadets), old(db.progress), old(db.missions), old(db.starSystems), id).state.progress
    ensures gw.calls == old(gw.calls) + DeleteCadetSpec(old(db.cadets), old(db.progress), old(db.missions), old(db.starSystems), id).calls
    ensures r == DeleteCadetSpec(old(db.cadets), old(db.progress), old(db.missions), old(db.starSystems), id).result
  {
    if id !in db.cadets {
      assert gw.calls == old(gw.calls) + [];
      return Err(ResourceNotFound);
    }
    var cadet := db.cadets[id];
    var ignored := gw.DeleteGiteaUser(cadet.username);
    if OwnsAny(db.missions, db.starSystems, id) {
      return Err(DataIntegrity);
    }
    db.progress := DropProgressOf(db.progress, id);
    db.cadets := db.cadets - {id};
    r := Ok(());
  }

  /** A delete of a known cadet sends the Gitea delete and succeeds, whatever
      Gitea answers, exactly when the cadet owns no mission and no star
      system; afterwards no progress record refers to the cadet while every
      other record is kept. Any failure leaves both tables as they were. */
  lemma DeleteCadetCorrect(cadets: map<Id, Cadet>, progress: Progress, missions: map<Id, Mission>,
    systems: map<Id, StarSystem>, id: Id)
    ensures var e := DeleteCadetSpec(cadets, progress, missions, systems, id);
      (e.result.Ok? <==> id in cadets && !OwnsAny(missions, systems, id)) &&
      (e.result.Err? ==> e.state == Tables(cadets, progress)) &&
      (id !in cadets ==> e.calls == [] && e.result == Err(ResourceNotFound)) &&
      (id in cadets ==> e.calls == [DeleteUser(cadets[id].username)]) &&
      (id in cadets && OwnsAny(missions, systems, id) ==> e.result == Err(DataIntegrity) && StatusOf(DataIntegrity) == 500)
    ensures var e := DeleteCadetSpec(cadets, progress, missions, systems, id);
      e.result.Ok? ==>
        id !in e.state.cadets && e.state.cadets.Keys == cadets.Keys - {id} &&
        (forall k :: k in e.state.progress ==> k.0 != id) &&
        (forall k :: k in progress && k.0 != id ==> k in e.state.progress && e.state.progress[k] == progress[k])
  {
  }

  // ---------------------------------------------------------------- updateCadet

  /** The specification of updateCadet, field by field: the email when
      supplied and different (a taken email is a conflict), the password
      hash when the password is supplied, the role when it is supplied and
      differs from the cadet's first role's name (an unknown role is not
      found), and the full name always. */
  ghost function UpdateCadetSpec(cadets: map<Id, Cadet>, roles: Roles, id: Id, req: CadetRequest,
    encode: string -> string): Outcome<map<Id, Cadet>, Cadet>
    requires RoleNamesUnique(roles)
  {
    if id !in cadets then Outcome(cadets, Err(UserNotFound))
    else
      var c := cadets[id];
      var changesEmail := req.email.Some? && req.email.value != c.email;
      if changesEmail && exists other :: other in cadets && cadets[other].email == req.email.value then
        Outcome(cadets, Err(ResourceConflict))
      else
        var c1 := if changesEmail then c.(email := req.email.value) else c;
        var c2 := if Supplied(req.password) then c1.(passwordHash := encode(req.password.value)) else c1;
        var changesRole := Supplied(req.role) && Some(req.role.value) != FirstRoleName(c.roles, roles);
        if changesRole && !RoleNameTaken(roles, req.role.value) then Outcome(cadets, Err(ResourceNotFound))
        else
          var c3 := if changesRole then c2.(roles := {RoleByName(roles, req.role.value).value}) else c2;
          var c4 := c3.(fullName := req.fullName);
          Outcome(cadets[id := c4], Ok(c4))
  }

  /** The name of the role that comes first in the cadet's role set. The
      order of a hash set is not specified; the model takes the smallest id,
      which for a cadet with one role (as every create and update leaves it)
      is that role. */
  function FirstRoleName(held: set<Id>, roles: Roles): (r: Option<string>)
    ensures r.None? <==> held * roles.Keys == {}
    ensures r.Some? ==> exists id :: id in held && id in roles && roles[id].name == r.value
  {
    var known := held * roles.Keys;
    if known == {} then None
    else
      var first := Smallest(known);
      Some(roles[first].name)
  }

  predicate IsSmallest(m: Id, s: set<Id>)
  {
    m in s && forall x :: x in s ==> m <= x
  }

  lemma {:induction false} HasSmallest(s: set<Id>)
    requires s != {}
    ensures exists m :: IsSmallest(m, s)
    decreases |s|
  {
    var x :| x in s;
    var rest := s - {x};
    if rest == {} {
      forall y | y in s ensures x <= y {
        assert y !in rest;
      }
      assert IsSmallest(x, s);
    } else {
      HasSmallest(rest);
      var m :| IsSmallest(m, rest);
      var least := if x < m then x else m;
      forall y | y in s ensures least <= y {
        if y != x {
          assert y in rest;
        }
      }
      assert IsSmallest(least, s);
    }
  }

  function Smallest(s: set<Id>): (m: Id)
    requires s != {}
    ensures m in s && forall x :: x in s ==> m <= x
  {
    HasSmallest(s);
    var m :| IsSmallest(m, s);
    m
  }

  method UpdateCadet(db: Db, id: Id, req: CadetRequest, encode: string -> string) returns (r: Result<Cadet>)
    requires RoleNamesUnique(db.roles)
    modifies db`cadets
    ensures db.cadets == UpdateCadetSpec(old(db.cadets), old(db.roles), id, req, encode).state
    ensures r == UpdateCadetSpec(old(db.cadets), old(db.roles), id, req, encode).result
  {
    if id !in db.cadets {
      return Err(UserNotFound);
    }
    var cadet := db.cadets[id];
    if req.email.Some? && req.email.value != cadet.email {
      if db.EmailTaken(req.email.value) {
        return Err(ResourceConflict);
      }
      cadet := cadet.(email := req.email.value);
    }
    if req.password.Some? && !IsBlank(req.password.value) {
      cadet := cadet.(passwordHash := encode(req.password.value));
    }
    if req.role.Some? && !IsBlank(req.role.value) {
      var current := FirstRoleName(cadet.roles, db.roles);
      if Some(req.role.value) != current {
        var role := FindRoleByName(db.roles, req.role.value);
        if role.None? {
          return Err(ResourceNotFound);
        }
        cadet := cadet.(roles := {role.value});
      }
    }
    cadet := cadet.(fullName := req.fullName);
    db.cadets := db.cadets[id := cadet];
    r := Ok(cadet);
  }

  /** An update keeps usernames and emails unique and keeps the set of
      cadets; a refused update changes nothing. */
  lemma UpdateCadetKeepsKeys(cadets: map<Id, Cadet>, roles: Roles, id: Id, req: CadetRequest, encode: string -> string)
    requires RoleNamesUnique(roles) && KeysUnique(cadets)
    ensures var e := UpdateCadetSpec(cadets, roles, id, req, encode);
      KeysUnique(e.state) && e.state.Keys == cadets.Keys && (e.result.Err? ==> e.state == cadets)
  {
    var e := UpdateCadetSpec(cadets, roles, id, req, encode);
    if e.result.Ok? {
      UpdateCadetFields(cadets, roles, id, req, encode);
      ReplaceKeepsKeysUnique(cadets, id, e.state[id]);
    }
  }

  /** Replacing a cadet by one with the same username and either the same
      email or one no cadet holds keeps the keys unique. */
  lemma ReplaceKeepsKeysUnique(cadets: map<Id, Cadet>, id: Id, c: Cadet)
    requires KeysUnique(cadets) && id in cadets && c.username == cadets[id].username
    requires c.email == cadets[id].email || forall other :: other in cadets ==> cadets[other].email != c.email
    ensures KeysUnique(cadets[id := c])
  {
  }

  /** A successful update changes only the one cadet, and each field
      follows its own rule: the username and Gitea id stay, the email and
      password change only when supplied, the full name is always taken,
      and the roles stay or become the one named role. */
  lemma UpdateCadetFields(cadets: map<Id, Cadet>, roles: Roles, id: Id, req: CadetRequest, encode: string -> string)
    requires RoleNamesUnique(roles)
    ensures var e := UpdateCadetSpec(cadets, roles, id, req, encode);
      e.result.Ok? ==>
        var before, after := cadets[id], e.state[id];
        after == e.result.value &&
        after.username == before.username && after.giteaUserId == before.giteaUserId &&
        after.email == (if req.email.Some? then req.email.value else before.email) &&
        after.passwordHash == (if Supplied(req.password) then encode(req.password.value) else before.passwordHash) &&
        after.fullName == req.fullName &&
        (after.roles == before.roles || (Supplied(req.role) && after.roles == {RoleByName(roles, req.role.value).value})) &&
        forall other :: other in cadets && other != id ==> e.state[other] == cadets[other]
  {
  }

  /** Changing the email to one another cadet holds is refused with a
      conflict and changes nothing. */
  lemma UpdateCadetEmailConflict(cadets: map<Id, Cadet>, roles: Roles, id: Id, req: CadetRequest, encode: string -> string)
    requires RoleNamesUnique(roles)
    ensures var e := UpdateCadetSpec(cadets, roles, id, req, encode);
      id in cadets && req.email.Some? && req.email.value != cadets[id].email &&
      (exists other :: other in cadets && cadets[other].email == req.email.value) ==>
        e == Outcome(cadets, Err(ResourceConflict))
  {
  }
}
