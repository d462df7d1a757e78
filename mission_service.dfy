/** MissionService: creating a mission together with its template
    repository, editing and deleting it under the ownership gates, starting
    it for a cadet, and the responses it hands out.

    Each state-changing operation has a ghost specification function that
    computes, from the tables before the call and the remote's answers, the
    new table, the requests sent to Gitea, and the result; the method is
    proved to do exactly that, and the properties the service promises are
    lemmas about the specification. */
module MissionService {
  import opened Errors
  import opened Authority
  import opened Entities
  import opened MissionRanks
  import opened Gitea
  import opened Store

  const CreateAnySystem := "mission:create_any_system"
  const EditAny := "mission:edit_any"
  const DeleteAny := "mission:delete_any"
  const AdminRole := "ROLE_ADMIN"

  /** The authenticated principal of the security context: its name and
      the authorities its token grants. */
  datatype Caller = Caller(username: string, granted: set<string>)

  /** isAdmin: an authenticated caller whose granted authorities hold ROLE_ADMIN. */
  predicate IsAdmin(caller: Option<Caller>)
  {
    caller.Some? && AdminRole in caller.value.granted
  }

  /** What a state-changing call did: the table it leaves behind, the Gitea
      requests it sent, and what it returned. */
  datatype Effect<S, T> = Effect(state: S, calls: seq<Call>, result: Result<T>)

  // ---------------------------------------------------------------- responses

  datatype MissionResponse = MissionResponse(
    id: Id,
    starSystemId: Id,
    name: string,
    descriptionMarkdown: Option<string>,
    templateRepositoryUrl: Option<string>,
    missionType: string,
    difficulty: string,
    orderInSystem: int,
    ownerId: Option<Id>,
    ownerUsername: Option<string>,
    verificationStatus: VerificationStatus,
    createdAt: Instant)

  /** mapToResponse: the template repository's URL is shown to administrators
      only; the owner is given by id and username. */
  function MapToResponse(id: Id, m: Mission, cadets: map<Id, Cadet>, admin: bool): (r: MissionResponse)
    ensures admin ==> r.templateRepositoryUrl == Some(m.templateRepositoryUrl)
    ensures !admin ==> r.templateRepositoryUrl.None?
    ensures r.id == id && r.ownerId == m.owner && r.orderInSystem == m.orderInSystem
    ensures r.ownerUsername.Some? ==>
      (m.owner.Some? && m.owner.value in cadets && r.ownerUsername.value == cadets[m.owner.value].username)
  {
    MissionResponse(id, m.starSystem, m.name, m.descriptionMarkdown,
      if admin then Some(m.templateRepositoryUrl) else None,
      m.missionType, m.difficulty, m.orderInSystem, m.owner,
      if m.owner.Some? && m.owner.value in cadets then Some(cadets[m.owner.value].username) else None,
      m.verificationStatus, m.createdAt)
  }

  /** A response to a non-administrator does not depend on the repository
      URL at all: two missions that differ only there look the same. */
  lemma RedactionHidesUrl(id: Id, m: Mission, cadets: map<Id, Cadet>, url: string)
    ensures MapToResponse(id, m, cadets, false) == MapToResponse(id, m.(templateRepositoryUrl := url), cadets, false)
    ensures MapToResponse(id, m, cadets, true) != MapToResponse(id, m.(templateRepositoryUrl := url), cadets, true)
      <==> url != m.templateRepositoryUrl
  {
  }

  // ---------------------------------------------------------------- extractRepoNameFromUrl

  /** The index of the last '/', or -1 when there is none (lastIndexOf). */
  function LastSlash(s: string): (i: int)
    ensures -1 <= i < |s|
    ensures i >= 0 ==> s[i] == '/'
    ensures forall j :: i < j < |s| ==> s[j] != '/'
  {
    if s == [] then -1
    else if s[|s| - 1] == '/' then |s| - 1
    else LastSlash(s[..|s| - 1])
  }

  predicate EndsWithGit(s: string)
  {
    |s| >= 4 && s[|s| - 4..] == ".git"
  }

  /** extractRepoNameFromUrl: nothing for an empty URL, otherwise the part
      after the last '/', without one trailing ".git". */
  function ExtractRepoName(url: string): (r: Option<string>)
    ensures r.None? <==> url == []
    ensures r.Some? ==> forall c :: c in r.value ==> c != '/'
  {
    if url == [] then None
    else
      var last := url[LastSlash(url) + 1..];
      if EndsWithGit(last) then Some(last[..|last| - 4]) else Some(last)
  }

  /** After a '/' followed by a text without one, that '/' is the last. */
  lemma LastSlashBefore(prefix: string, tail: string)
    requires forall c :: c in tail ==> c != '/'
    ensures LastSlash(prefix + "/" + tail) == |prefix|
    ensures (prefix + "/" + tail)[|prefix| + 1..] == tail
  {
    var u := prefix + "/" + tail;
    assert u[|prefix|] == '/';
    forall j | |prefix| < j < |u| ensures u[j] != '/' {
      assert u[j] == tail[j - |prefix| - 1] && tail[j - |prefix| - 1] in tail;
    }
    assert u[|prefix| + 1..] == tail;
  }

  /** The clone URLs Gitea hands out end in "/<name>.git"; the name comes back,
      and so does a name given without the suffix. */
  lemma ExtractRepoNameRoundTrip(prefix: string, name: string)
    requires forall c :: c in name ==> c != '/'
    ensures ExtractRepoName(prefix + "/" + name + ".git") == Some(name)
    ensures !EndsWithGit(name) ==> ExtractRepoName(prefix + "/" + name) == Some(name)
  {
    var tail := name + ".git";
    forall c | c in tail ensures c != '/' {
      assert c in name || c in ".git";
    }
    assert prefix + "/" + name + ".git" == prefix + "/" + tail;
    LastSlashBefore(prefix, tail);
    assert tail[..|tail| - 4] == name;
    LastSlashBefore(prefix, name);
  }

  /** A URL ending in '/' gives the empty name, which is not "no name". */
  lemma ExtractRepoNameTrailingSlash()
    ensures ExtractRepoName("h/") == Some("")
  {
    assert LastSlash("h/") == 1;
  }

  // ---------------------------------------------------------------- the forge's file uploads

  /** Uploading the request's files one after the other into admin/repo,
      stopping at the first failure. */
  function UploadsTrace(remote: Remote, mode: UploadMode, repo: string, files: seq<(string, string)>): Trace<()>
    decreases |files|
  {
    if files == [] then Trace([], Ok(()))
    else
      var pre := UploadsTrace(remote, mode, repo, files[..|files| - 1]);
      if pre.result.Err? then pre
      else
        var f := files[|files| - 1];
        var up := UploadTrace(remote, mode, remote.admin, repo, f.0, f.1);
        Trace(pre.calls + up.calls, if up.result.Err? then Err(up.result.error) else Ok(()))
  }

  /** Once a prefix of the files has failed, the rest are never sent. */
  lemma {:induction false} UploadsStopAtFailure(remote: Remote, mode: UploadMode, repo: string, files: seq<(string, string)>, i: nat)
    requires i <= |files| && UploadsTrace(remote, mode, repo, files[..i]).result.Err?
    ensures UploadsTrace(remote, mode, repo, files) == UploadsTrace(remote, mode, repo, files[..i])
    decreases |files| - i
  {
    if i < |files| {
      var next := files[..i + 1];
      assert next[..|next| - 1] == files[..i];
      UploadsStopAtFailure(remote, mode, repo, files, i + 1);
    } else {
      assert files[..i] == files;
    }
  }

  /** Uploading one more file after a successful prefix. */
  lemma UploadsStep(remote: Remote, mode: UploadMode, repo: string, files: seq<(string, string)>, i: nat)
    requires i < |files| && UploadsTrace(remote, mode, repo, files[..i]).result.Ok?
    ensures var pre := UploadsTrace(remote, mode, repo, files[..i]);
      var up := UploadTrace(remote, mode, remote.admin, repo, files[i].0, files[i].1);
      UploadsTrace(remote, mode, repo, files[..i + 1]) ==
        Trace(pre.calls + up.calls, if up.result.Err? then Err(up.result.error) else Ok(()))
  {
    assert files[..i + 1][..i] == files[..i];
  }

  /** When all uploads succeed, every file whose probe allows a write was
      written with its content and accepted, and nothing outside admin/repo
      was addressed. */
  lemma {:induction false} UploadsWriteEveryFile(remote: Remote, repo: string, files: seq<(string, string)>)
    requires UploadsTrace(remote, Corrected, repo, files).result.Ok?
    ensures forall i :: 0 <= i < |files| && Writable(remote, repo, files[i].0) ==>
      Wrote(remote, UploadsTrace(remote, Corrected, repo, files).calls, repo, files[i].0, files[i].1)
    decreases |files|
  {
    if files != [] {
      var t := UploadsTrace(remote, Corrected, repo, files);
      var init := files[..|files| - 1];
      var pre := UploadsTrace(remote, Corrected, repo, init);
      var f := files[|files| - 1];
      var up := UploadTrace(remote, Corrected, remote.admin, repo, f.0, f.1);
      assert t.calls == pre.calls + up.calls;
      UploadsWriteEveryFile(remote, repo, init);
      forall i | 0 <= i < |files| && Writable(remote, repo, files[i].0)
        ensures Wrote(remote, t.calls, repo, files[i].0, files[i].1)
      {
        if i < |files| - 1 {
          assert files[i] == init[i];
          var c :| c in pre.calls && IsWriteOf(c, remote.admin, repo, files[i].0, files[i].1) && remote.answer(c).Body?;
          assert c in t.calls;
        } else {
          UploadWritesContent(remote, remote.admin, repo, f.0, f.1);
          assert up.calls[|up.calls| - 1] in t.calls;
        }
      }
    }
  }

  /** The uploads as written into a repository that holds no file yet
      succeed and write nothing: every probe answers 404. */
  lemma {:induction false} UploadsAsWrittenWriteNothing(remote: Remote, repo: string, files: seq<(string, string)>)
    requires NoFileIn(remote, repo)
    ensures var t := UploadsTrace(remote, AsWritten, repo, files);
      t.result.Ok? && forall c :: c in t.calls ==> !IsWrite(c)
    decreases |files|
  {
    if files != [] {
      var f := files[|files| - 1];
      UploadsAsWrittenWriteNothing(remote, repo, files[..|files| - 1]);
      UploadAsWrittenSkipsMissingFile(remote, remote.admin, repo, f.0, f.1);
    }
  }

  // ---------------------------------------------------------------- createMissionFromForge

  datatype ForgeRequest = ForgeRequest(
    starSystem: Id,
    name: string,
    descriptionMarkdown: Option<string>,
    missionType: string,
    difficulty: string,
    orderInSystem: int,
    templateLanguage: string,
    files: seq<(string, string)>)

  /** The mission the forge saves: in the requested system at the requested
      rank, owned by the caller, PENDING, with the new repository's URL. */
  function ForgedMission(req: ForgeRequest, url: string, owner: Id, now: Instant): Mission
  {
    Mission(req.starSystem, req.name, req.descriptionMarkdown, url, req.missionType, req.difficulty,
      req.orderInSystem, Some(owner), Pending, now, now)
  }

  /** The checks made before anything is written or sent, in the source's
      order; the result is the acting cadet. */
  ghost function ForgeChecks(systems: map<Id, StarSystem>, missions: Missions, cadets: map<Id, Cadet>,
    roles: map<Id, Role>, perms: map<Id, Permission>, username: string, req: ForgeRequest): (r: Result<Id>)
    requires KeysUnique(cadets)
    ensures r.Ok? ==> r.value in cadets && cadets[r.value].username == username
  {
    var actor := UserByName(cadets, username);
    if actor.None? then Err(ResourceNotFound)
    else if req.starSystem !in systems then Err(ResourceNotFound)
    else
      var gate := Gate(systems[req.starSystem].owner, actor.value,
        Authorities(cadets[actor.value].roles, roles, perms), CreateAnySystem);
      if gate.Err? then Err(gate.error)
      else if NameTaken(missions, req.starSystem, req.name) then Err(ResourceConflict)
      else Ok(actor.value)
  }

  /** The requests of the forge: provision the repository named after the
      new mission, then upload the request's files into it; the result is
      the repository's clone URL. */
  function ForgeTrace(remote: Remote, mode: UploadMode, repo: string, req: ForgeRequest, username: string): Trace<string>
  {
    var created := MissionRepoTrace(remote, mode, repo, req.templateLanguage, username);
    if created.result.Err? then created
    else
      var up := UploadsTrace(remote, mode, repo, req.files);
      Trace(created.calls + up.calls, if up.result.Err? then Err(up.result.error) else created.result)
  }

  /** Make room at rank k of system s when it is taken (shiftOrdersUp behind
      the existence probe). */
  function MakeRoom(missions: Missions, s: Id, k: int): Missions
  {
    if RankTaken(missions, s, k) then ShiftedUp(missions, s, k) else missions
  }

  /** What the forge does once the checks have passed for `actor`: make room
      at the requested rank, send the requests, save the mission. A failure
      rolls the mission table back, but the requests already sent stay
      sent. */
  function ForgeWork(missions: Missions, cadets: map<Id, Cadet>, remote: Remote, mode: UploadMode, caller: Caller,
    req: ForgeRequest, actor: Id, newId: Id, now: Instant): Effect<Missions, MissionResponse>
  {
    var sent := ForgeTrace(remote, mode, IdText(newId), req, caller.username);
    if sent.result.Err? then Effect(missions, sent.calls, Err(sent.result.error))
    else
      var m := ForgedMission(req, sent.result.value, actor, now);
      Effect(MakeRoom(missions, req.starSystem, req.orderInSystem)[newId := m], sent.calls,
        Ok(MapToResponse(newId, m, cadets, IsAdmin(Some(caller)))))
  }

  /** The specification of createMissionFromForge: the checks, then the work. */
  ghost function ForgeSpec(systems: map<Id, StarSystem>, missions: Missions, cadets: map<Id, Cadet>,
    roles: map<Id, Role>, perms: map<Id, Permission>, remote: Remote, mode: UploadMode, caller: Caller,
    req: ForgeRequest, newId: Id, now: Instant): Effect<Missions, MissionResponse>
    requires KeysUnique(cadets)
  {
    var checks := ForgeChecks(systems, missions, cadets, roles, perms, caller.username, req);
    if checks.Err? then Effect(missions, [], Err(checks.error))
    else ForgeWork(missions, cadets, remote, mode, caller, req, checks.value, newId, now)
  }

  /** The loop over the request's files: upload each into admin/repo, and
      stop at the first failure. */
  method UploadFiles(gw: Gateway, repo: string, files: seq<(string, string)>) returns (r: Result<()>)
    modifies gw
    ensures gw.calls == old(gw.calls) + UploadsTrace(gw.remote, gw.mode, repo, files).calls
    ensures r == UploadsTrace(gw.remote, gw.mode, repo, files).result
  {
    var i := 0;
    while i < |files|
      invariant 0 <= i <= |files|
      invariant gw.calls == old(gw.calls) + UploadsTrace(gw.remote, gw.mode, repo, files[..i]).calls
      invariant UploadsTrace(gw.remote, gw.mode, repo, files[..i]).result.Ok?
    {
      var step := UploadNext(gw, old(gw.calls), repo, files, i);
      if step.Err? {
        UploadsStopAtFailure(gw.remote, gw.mode, repo, files, i + 1);
        return step;
      }
      i := i + 1;
    }
    assert files[..i] == files;
    r := Ok(());
  }

  /** One turn of the loop: upload files[i] after the first i went through. */
  method UploadNext(gw: Gateway, ghost base: seq<Call>, repo: string, files: seq<(string, string)>, i: nat)
    returns (r: Result<()>)
    requires i < |files| && UploadsTrace(gw.remote, gw.mode, repo, files[..i]).result.Ok?
    requires gw.calls == base + UploadsTrace(gw.remote, gw.mode, repo, files[..i]).calls
    modifies gw
    ensures gw.calls == base + UploadsTrace(gw.remote, gw.mode, repo, files[..i + 1]).calls
    ensures r == UploadsTrace(gw.remote, gw.mode, repo, files[..i + 1]).result
  {
    UploadsStep(gw.remote, gw.mode, repo, files, i);
    var up := gw.UploadFile(gw.remote.admin, repo, files[i].0, files[i].1);
    r := if up.Err? then Err(up.error) else Ok(());
  }

  /** The checks of createMissionFromForge, against the stored tables. */
  method CheckForge(db: Db, username: string, req: ForgeRequest) returns (r: Result<Id>)
    requires KeysUnique(db.cadets)
    ensures r == ForgeChecks(db.starSystems, db.missions, db.cadets, db.roles, db.permissions, username, req)
  {
    var actor := db.FindByUsername(username);
    if actor.None? {
      return Err(ResourceNotFound);
    }
    if req.starSystem !in db.starSystems {
      return Err(ResourceNotFound);
    }
    var authorities := db.AuthoritiesOf(actor.value);
    var gate := Gate(db.starSystems[req.starSystem].owner, actor.value, authorities, CreateAnySystem);
    if gate.Err? {
      return Err(gate.error);
    }
    if NameTaken(db.missions, req.starSystem, req.name) {
      return Err(ResourceConflict);
    }
    r := Ok(actor.value);
  }

  method CreateMissionFromForge(db: Db, gw: Gateway, caller: Caller, req: ForgeRequest, newId: Id, now: Instant)
    returns (r: Result<MissionResponse>)
    requires KeysUnique(db.cadets)
    modifies db`missions, gw
    ensures var e := ForgeSpec(old(db.starSystems), old(db.missions), old(db.cadets), old(db.roles),
      old(db.permissions), gw.remote, gw.mode, caller, req, newId, now);
      db.missions == e.state && gw.calls == old(gw.calls) + e.calls && r == e.result
  {
    var actor := CheckForge(db, caller.username, req);
    if actor.Err? {
      assert gw.calls == old(gw.calls) + [];
      return Err(actor.error);
    }
    r := ForgeAfterChecks(db, gw, caller, req, actor.value, newId, now);
  }

  /** Provision the mission's repository and upload the files into it. */
  method SendForge(gw: Gateway, repo: string, req: ForgeRequest, username: string) returns (r: Result<string>)
    modifies gw
    ensures gw.calls == old(gw.calls) + ForgeTrace(gw.remote, gw.mode, repo, req, username).calls
    ensures r == ForgeTrace(gw.remote, gw.mode, repo, req, username).result
  {
    r := gw.CreateMissionRepository(repo, req.templateLanguage, username);
    if r.Err? {
      return;
    }
    ghost var created := gw.calls;
    var uploaded := UploadFiles(gw, repo, req.files);
    assert gw.calls == old(gw.calls) + (created[|old(gw.calls)|..] + UploadsTrace(gw.remote, gw.mode, repo, req.files).calls);
    if uploaded.Err? {
      r := Err(uploaded.error);
    }
  }

  /** The part of createMissionFromForge after the checks. */
  method ForgeAfterChecks(db: Db, gw: Gateway, caller: Caller, req: ForgeRequest, actor: Id, newId: Id, now: Instant)
    returns (r: Result<MissionResponse>)
    modifies db`missions, gw
    ensures db.missions == ForgeWork(old(db.missions), old(db.cadets), gw.remote, gw.mode, caller, req, actor, newId, now).state
    ensures gw.calls == old(gw.calls) + ForgeWork(old(db.missions), old(db.cadets), gw.remote, gw.mode, caller, req, actor, newId, now).calls
    ensures r == ForgeWork(old(db.missions), old(db.cadets), gw.remote, gw.mode, caller, req, actor, newId, now).result
  {
    var snapshot := db.missions;
    if RankTaken(db.missions, req.starSystem, req.orderInSystem) {
      db.ShiftOrdersUp(req.starSystem, req.orderInSystem);
    }
    var url := SendForge(gw, IdText(newId), req, caller.username);
    if url.Err? {
      db.missions := snapshot;
      return Err(url.error);
    }
    var m := ForgedMission(req, url.value, actor, now);
    db.missions := db.missions[newId := m];
    r := Ok(MapToResponse(newId, m, db.cadets, IsAdmin(Some(caller))));
  }

  // ---------------------------------------------------------------- the invariants the checks keep

  /** Within a system, mission names are distinct (kept by the name checks;
      the table itself declares no such constraint). */
  predicate NamesDistinct(ms: Missions)
  {
    forall a, b :: a in ms && b in ms && a != b && ms[a].starSystem == ms[b].starSystem ==>
      ms[a].name != ms[b].name
  }

  /** Making room keeps every record but its rank, leaves rank k of system s
      free, and keeps the ranks distinct. */
  lemma {:induction false} MakeRoomFrees(ms: Missions, s: Id, k: int)
    requires RanksDistinct(ms)
    ensures var r := MakeRoom(ms, s, k);
      r.Keys == ms.Keys && !RankTaken(r, s, k) && RanksDistinct(r) &&
      forall id :: id in ms ==> r[id] == ms[id].(orderInSystem := r[id].orderInSystem)
  {
    if RankTaken(ms, s, k) {
      ShiftedUpFreesRank(ms, s, k);
      ShiftedUpExact(ms, s, k);
    }
  }

  /** Placing a record at a rank no other record of its system holds keeps
      the ranks distinct; placing it under a name no other record of its
      system has keeps the names distinct. */
  lemma {:induction false} PlaceKeepsDistinct(ms: Missions, id: Id, m: Mission)
    requires RanksDistinct(ms) && NamesDistinct(ms)
    ensures (forall b :: b in ms && b != id && ms[b].starSystem == m.starSystem ==> ms[b].orderInSystem != m.orderInSystem)
      ==> RanksDistinct(ms[id := m])
    ensures (forall b :: b in ms && b != id && ms[b].starSystem == m.starSystem ==> ms[b].name != m.name)
      ==> NamesDistinct(ms[id := m])
  {
    var r := ms[id := m];
    if forall b :: b in ms && b != id && ms[b].starSystem == m.starSystem ==> ms[b].orderInSystem != m.orderInSystem {
      forall a, b | a in r && b in r && a != b && r[a].starSystem == r[b].starSystem
        ensures r[a].orderInSystem != r[b].orderInSystem
      {
        if a != id && b != id { assert r[a] == ms[a] && r[b] == ms[b]; }
      }
    }
    if forall b :: b in ms && b != id && ms[b].starSystem == m.starSystem ==> ms[b].name != m.name {
      forall a, b | a in r && b in r && a != b && r[a].starSystem == r[b].starSystem
        ensures r[a].name != r[b].name
      {
        if a != id && b != id { assert r[a] == ms[a] && r[b] == ms[b]; }
      }
    }
  }

  /** Names and systems survive making room, so do distinct names. */
  lemma {:induction false} MakeRoomKeepsNames(ms: Missions, s: Id, k: int)
    requires RanksDistinct(ms) && NamesDistinct(ms)
    ensures NamesDistinct(MakeRoom(ms, s, k))
    ensures forall n :: NameTaken(MakeRoom(ms, s, k), s, n) <==> NameTaken(ms, s, n)
  {
    MakeRoomFrees(ms, s, k);
    var r := MakeRoom(ms, s, k);
    forall a, b | a in r && b in r && a != b && r[a].starSystem == r[b].starSystem
      ensures r[a].name != r[b].name
    {
      assert r[a].name == ms[a].name && r[b].name == ms[b].name;
    }
    forall n ensures NameTaken(r, s, n) <==> NameTaken(ms, s, n) {
      if NameTaken(ms, s, n) {
        var id :| id in ms && ms[id].starSystem == s && ms[id].name == n;
        assert r[id].starSystem == s && r[id].name == n;
      }
    }
  }

  // ---------------------------------------------------------------- what the forge promises

  /** A forge refused by its checks sends nothing and changes nothing, and a
      forge that fails later leaves the table as it was. */
  lemma ForgeFailureIsClean(systems: map<Id, StarSystem>, missions: Missions, cadets: map<Id, Cadet>,
    roles: map<Id, Role>, perms: map<Id, Permission>, remote: Remote, mode: UploadMode, caller: Caller,
    req: ForgeRequest, newId: Id, now: Instant)
    requires KeysUnique(cadets)
    ensures var checks := ForgeChecks(systems, missions, cadets, roles, perms, caller.username, req);
      var e := ForgeSpec(systems, missions, cadets, roles, perms, remote, mode, caller, req, newId, now);
      (checks.Err? ==> e.calls == [] && e.result == Err(checks.error)) &&
      (e.result.Err? ==> e.state == missions)
  {
  }

  /** The ownership gate comes before the name check: a caller who neither
      owns the system nor holds the override is refused even when the name is
      taken, and before anything is sent. */
  lemma ForgeGateBeforeName(systems: map<Id, StarSystem>, missions: Missions, cadets: map<Id, Cadet>,
    roles: map<Id, Role>, perms: map<Id, Permission>, remote: Remote, mode: UploadMode, caller: Caller,
    req: ForgeRequest, newId: Id, now: Instant, actor: Id)
    requires KeysUnique(cadets) && actor in cadets && cadets[actor].username == caller.username
    requires req.starSystem in systems && systems[req.starSystem].owner.Some?
    requires systems[req.starSystem].owner.value != actor
    requires CreateAnySystem !in Authorities(cadets[actor].roles, roles, perms)
    ensures ForgeSpec(systems, missions, cadets, roles, perms, remote, mode, caller, req, newId, now)
      == Effect(missions, [], Err(UnauthorizedAccess))
  {
  }

  /** A successful forge saves the new mission in the requested system at the
      requested rank, PENDING and owned by the caller, after shifting the
      system's ranks from there up when the rank was taken; the other records
      keep everything but their rank; ranks and names stay distinct. */
  lemma {:induction false} ForgeKeepsInvariants(systems: map<Id, StarSystem>, missions: Missions, cadets: map<Id, Cadet>,
    roles: map<Id, Role>, perms: map<Id, Permission>, remote: Remote, mode: UploadMode, caller: Caller,
    req: ForgeRequest, newId: Id, now: Instant)
    requires KeysUnique(cadets) && newId !in missions
    requires RanksDistinct(missions) && NamesDistinct(missions)
    ensures var e := ForgeSpec(systems, missions, cadets, roles, perms, remote, mode, caller, req, newId, now);
      e.result.Ok? ==>
        e.state.Keys == missions.Keys + {newId} &&
        e.state - {newId} == MakeRoom(missions, req.starSystem, req.orderInSystem) &&
        e.state[newId].starSystem == req.starSystem && e.state[newId].name == req.name &&
        e.state[newId].orderInSystem == req.orderInSystem &&
        e.state[newId].verificationStatus == Pending &&
        e.state[newId].owner == UserByName(cadets, caller.username) &&
        RanksDistinct(e.state) && NamesDistinct(e.state)
  {
    var e := ForgeSpec(systems, missions, cadets, roles, perms, remote, mode, caller, req, newId, now);
    var checks := ForgeChecks(systems, missions, cadets, roles, perms, caller.username, req);
    if e.result.Ok? {
      var sent := ForgeTrace(remote, mode, IdText(newId), req, caller.username);
      var m := ForgedMission(req, sent.result.value, checks.value, now);
      assert e.state == MakeRoom(missions, req.starSystem, req.orderInSystem)[newId := m];
      assert !NameTaken(missions, req.starSystem, req.name);
      PlaceInRoom(missions, newId, m);
    }
  }

  /** A new mission placed at rank k of its system, after making room there,
      keeps ranks and names distinct when its name is new to the system. */
  lemma PlaceInRoom(missions: Missions, newId: Id, m: Mission)
    requires RanksDistinct(missions) && NamesDistinct(missions) && newId !in missions
    requires !NameTaken(missions, m.starSystem, m.name)
    ensures var room := MakeRoom(missions, m.starSystem, m.orderInSystem);
      var st := room[newId := m];
      st.Keys == missions.Keys + {newId} && st - {newId} == room && RanksDistinct(st) && NamesDistinct(st)
  {
    var s, k := m.starSystem, m.orderInSystem;
    var room := MakeRoom(missions, s, k);
    MakeRoomFrees(missions, s, k);
    MakeRoomKeepsNames(missions, s, k);
    PlaceKeepsDistinct(room, newId, m);
    assert room[newId := m] - {newId} == room;
  }

  /** The forge as written, into the freshly created repository that holds
      no file yet, writes no file at all: neither the template's nor the
      request's. Whatever it returns, no request it sent is a write. */
  lemma ForgeAsWrittenWritesNothing(remote: Remote, repo: string, req: ForgeRequest, username: string)
    requires NoFileIn(remote, repo)
    ensures forall c :: c in ForgeTrace(remote, AsWritten, repo, req, username).calls ==> !IsWrite(c)
  {
    var template := TemplateFor(remote, req.templateLanguage);
    if template.Some? {
      ProvisionAsWrittenWritesNothing(remote, repo, template.value, username);
    }
    UploadsAsWrittenWriteNothing(remote, repo, req.files);
  }

  // ---------------------------------------------------------------- updateMission

  datatype MissionRequest = MissionRequest(
    starSystem: Id,
    name: string,
    descriptionMarkdown: Option<string>,
    missionType: string,
    difficulty: string,
    orderInSystem: int)

  /** The checks of updateMission, in the source's order; the result is the
      acting cadet. The name is checked only when it changes, and against the
      target system. */
  ghost function UpdateChecks(systems: map<Id, StarSystem>, missions: Missions, cadets: map<Id, Cadet>,
    roles: map<Id, Role>, perms: map<Id, Permission>, username: string, id: Id, req: MissionRequest): (r: Result<Id>)
    requires KeysUnique(cadets)
    ensures r.Ok? ==> r.value in cadets && id in missions && req.starSystem in systems
  {
    var actor := UserByName(cadets, username);
    if actor.None? then Err(ResourceNotFound)
    else if id !in missions then Err(ResourceNotFound)
    else
      var authorities := Authorities(cadets[actor.value].roles, roles, perms);
      var edit := Gate(missions[id].owner, actor.value, authorities, EditAny);
      if edit.Err? then Err(edit.error)
      else if req.starSystem !in systems then Err(ResourceNotFound)
      else
        var move := Gate(systems[req.starSystem].owner, actor.value, authorities, CreateAnySystem);
        if move.Err? then Err(move.error)
        else if missions[id].name != req.name && NameTaken(missions, req.starSystem, req.name) then Err(ResourceConflict)
        else Ok(actor.value)
  }

  /** The setters of updateMission; owner, repository URL, status and
      creation time are kept. */
  function Edited(m: Mission, req: MissionRequest, now: Instant): Mission
  {
    m.(starSystem := req.starSystem, name := req.name, descriptionMarkdown := req.descriptionMarkdown,
       missionType := req.missionType, difficulty := req.difficulty, orderInSystem := req.orderInSystem,
       updatedAt := now)
  }

  /** The writes of updateMission: room is made at the requested rank only
      when the rank value changes, then the edited record is saved. */
  function UpdateWork(missions: Missions, id: Id, req: MissionRequest, now: Instant): Missions
    requires id in missions
  {
    var moved := if missions[id].orderInSystem != req.orderInSystem
      then MakeRoom(missions, req.starSystem, req.orderInSystem) else missions;
    moved[id := Edited(missions[id], req, now)]
  }

  /** The specification of updateMission; it sends no Gitea request. */
  ghost function UpdateSpec(systems: map<Id, StarSystem>, missions: Missions, cadets: map<Id, Cadet>,
    roles: map<Id, Role>, perms: map<Id, Permission>, caller: Caller, id: Id, req: MissionRequest,
    now: Instant): Effect<Missions, MissionResponse>
    requires KeysUnique(cadets)
  {
    var checks := UpdateChecks(systems, missions, cadets, roles, perms, caller.username, id, req);
    if checks.Err? then Effect(missions, [], Err(checks.error))
    else
      var ms := UpdateWork(missions, id, req, now);
      Effect(ms, [], Ok(MapToResponse(id, Edited(missions[id], req, now), cadets, IsAdmin(Some(caller)))))
  }

  method CheckUpdate(db: Db, username: string, id: Id, req: MissionRequest) returns (r: Result<Id>)
    requires KeysUnique(db.cadets)
    ensures r == UpdateChecks(db.starSystems, db.missions, db.cadets, db.roles, db.permissions, username, id, req)
  {
    var actor := db.FindByUsername(username);
    if actor.None? {
      return Err(ResourceNotFound);
    }
    if id !in db.missions {
      return Err(ResourceNotFound);
    }
    var authorities := db.AuthoritiesOf(actor.value);
    var edit := Gate(db.missions[id].owner, actor.value, authorities, EditAny);
    if edit.Err? {
      return Err(edit.error);
    }
    if req.starSystem !in db.starSystems {
      return Err(ResourceNotFound);
    }
    var move := Gate(db.starSystems[req.starSystem].owner, actor.value, authorities, CreateAnySystem);
    if move.Err? {
      return Err(move.error);
    }
    if db.missions[id].name != req.name && NameTaken(db.missions, req.starSystem, req.name) {
      return Err(ResourceConflict);
    }
    r := Ok(actor.value);
  }

  method UpdateMission(db: Db, caller: Caller, id: Id, req: MissionRequest, now: Instant)
    returns (r: Result<MissionResponse>)
    requires KeysUnique(db.cadets)
    modifies db`missions
    ensures db.missions == UpdateSpec(old(db.starSystems), old(db.missions), old(db.cadets), old(db.roles),
      old(db.permissions), caller, id, req, now).state
    ensures r == UpdateSpec(old(db.starSystems), old(db.missions), old(db.cadets), old(db.roles),
      old(db.permissions), caller, id, req, now).result
  {
    var actor := CheckUpdate(db, caller.username, id, req);
    if actor.Err? {
      return Err(actor.error);
    }
    var loaded := db.missions[id];
    if loaded.orderInSystem != req.orderInSystem {
      if RankTaken(db.missions, req.starSystem, req.orderInSystem) {
        db.ShiftOrdersUp(req.starSystem, req.orderInSystem);
      }
    }
    var edited := Edited(loaded, req, now);
    db.missions := db.missions[id := edited];
    r := Ok(MapToResponse(id, edited, db.cadets, IsAdmin(Some(caller))));
  }

  /** A refused update changes nothing. */
  lemma UpdateRefusalIsClean(systems: map<Id, StarSystem>, missions: Missions, cadets: map<Id, Cadet>,
    roles: map<Id, Role>, perms: map<Id, Permission>, caller: Caller, id: Id, req: MissionRequest, now: Instant)
    requires KeysUnique(cadets)
    ensures var e := UpdateSpec(systems, missions, cadets, roles, perms, caller, id, req, now);
      e.result.Err? ==> e.state == missions && e.result == Err(UpdateChecks(systems, missions, cadets, roles, perms, caller.username, id, req).error)
  {
  }

  /** A successful update saves the edited record under the same id, and
      every other record keeps everything but its rank, which grows by at
      most one and only inside the target system; in particular the system
      the mission leaves is not compacted. */
  lemma {:induction false} UpdateTouchesOnlyRanks(systems: map<Id, StarSystem>, missions: Missions, cadets: map<Id, Cadet>,
    roles: map<Id, Role>, perms: map<Id, Permission>, caller: Caller, id: Id, req: MissionRequest, now: Instant)
    requires KeysUnique(cadets)
    ensures var e := UpdateSpec(systems, missions, cadets, roles, perms, caller, id, req, now);
      e.result.Ok? ==>
        id in missions && e.state.Keys == missions.Keys &&
        e.state[id] == missions[id].(starSystem := req.starSystem, name := req.name,
          descriptionMarkdown := req.descriptionMarkdown, missionType := req.missionType,
          difficulty := req.difficulty, orderInSystem := req.orderInSystem, updatedAt := now) &&
        forall b :: b in missions && b != id ==>
          e.state[b] == missions[b].(orderInSystem := e.state[b].orderInSystem) &&
          (e.state[b].orderInSystem == missions[b].orderInSystem ||
           (e.state[b].orderInSystem == missions[b].orderInSystem + 1 && missions[b].starSystem == req.starSystem))
  {
    var e := UpdateSpec(systems, missions, cadets, roles, perms, caller, id, req, now);
    if e.result.Ok? {
      if missions[id].orderInSystem != req.orderInSystem && RankTaken(missions, req.starSystem, req.orderInSystem) {
        ShiftedUpExact(missions, req.starSystem, req.orderInSystem);
      }
    }
  }

  /** Ranks stay distinct across an update that changes the rank, or keeps
      the mission in its system. */
  lemma {:induction false} UpdateKeepsRanksDistinct(systems: map<Id, StarSystem>, missions: Missions, cadets: map<Id, Cadet>,
    roles: map<Id, Role>, perms: map<Id, Permission>, caller: Caller, id: Id, req: MissionRequest, now: Instant)
    requires KeysUnique(cadets) && RanksDistinct(missions) && NamesDistinct(missions)
    requires id in missions ==> (missions[id].orderInSystem != req.orderInSystem || missions[id].starSystem == req.starSystem)
    ensures RanksDistinct(UpdateSpec(systems, missions, cadets, roles, perms, caller, id, req, now).state)
  {
    var e := UpdateSpec(systems, missions, cadets, roles, perms, caller, id, req, now);
    if e.result.Ok? {
      var m := Edited(missions[id], req, now);
      if missions[id].orderInSystem != req.orderInSystem {
        var room := MakeRoom(missions, req.starSystem, req.orderInSystem);
        MakeRoomFrees(missions, req.starSystem, req.orderInSystem);
        MakeRoomKeepsNames(missions, req.starSystem, req.orderInSystem);
        PlaceKeepsDistinct(room, id, m);
      } else {
        PlaceKeepsDistinct(missions, id, m);
      }
    }
  }

  /** Moving a mission to another system without changing its rank skips the
      rank probe, so two missions of the target system can end up with the
      same rank: mission 1 (system 7, rank 1) moves to system 8, where
      mission 2 already holds rank 1. */
  lemma CrossSystemMoveMayDuplicateRank()
    ensures var cadet := Cadet("ann", "ann@x", "h", None, {}, None, 0, 0);
      var sys := StarSystem("s", None, None, Some(5), 0, 0);
      var m := Mission(7, "a", None, "u", "T", "D", 1, Some(5), Draft, 0, 0);
      var missions := map[1 := m, 2 := m.(starSystem := 8, name := "b")];
      var req := MissionRequest(8, "a", None, "T", "D", 1);
      var e := UpdateSpec(map[7 := sys, 8 := sys], missions, map[5 := cadet], map[], map[],
        Caller("ann", {}), 1, req, 9);
      RanksDistinct(missions) && e.result.Ok? && !RanksDistinct(e.state)
  {
    var cadet := Cadet("ann", "ann@x", "h", None, {}, None, 0, 0);
    var cadets := map[5 := cadet];
    assert KeysUnique(cadets);
    assert cadets[5].username == "ann";
    var who := UserByName(cadets, "ann");
    assert who.Some? && who.value in cadets.Keys;
    assert cadets.Keys == {5};
    var m := Mission(7, "a", None, "u", "T", "D", 1, Some(5), Draft, 0, 0);
    var missions := map[1 := m, 2 := m.(starSystem := 8, name := "b")];
    assert !NameTaken(missions, 8, "a");
    var after := UpdateWork(missions, 1, MissionRequest(8, "a", None, "T", "D", 1), 9);
    assert after[1].starSystem == after[2].starSystem && after[1].orderInSystem == after[2].orderInSystem;
  }

  // ---------------------------------------------------------------- startMission

  /** The name of a cadet's working copy of a mission. */
  function WorkingRepoName(username: string, missionId: Id): string
  {
    "cadet-" + username + "-" + IdText(missionId)
  }

  /** The specification of startMission. The result is the stored URL of the
      cadet's working copy, which a resumed record may hold as null. */
  ghost function StartSpec(missions: Missions, cadets: map<Id, Cadet>, progress: Progress, remote: Remote, mode: UploadMode,
    missionId: Id, username: string, now: Instant): Effect<Progress, Option<string>>
    requires KeysUnique(cadets)
  {
    if missionId !in missions then Effect(progress, [], Err(ResourceNotFound))
    else
      var cadet := UserByName(cadets, username);
      if cadet.None? then Effect(progress, [], Err(ResourceNotFound))
      else if (cadet.value, missionId) in progress then
        Effect(progress, [], Ok(progress[(cadet.value, missionId)].repositoryUrl))
      else
        var repo := WorkingRepoName(cadets[cadet.value].username, missionId);
        var source := ExtractRepoName(missions[missionId].templateRepositoryUrl);
        if source.None? then Effect(progress, [], Err(ExternalService))
        else
          var p := ProvisionTrace(remote, mode, repo, (remote.admin, source.value), cadets[cadet.value].username);
          if p.result.Err? then Effect(progress, p.calls, Err(p.result.error))
          else Effect(progress[(cadet.value, missionId) := StartedRecord(p.result.value, now)], p.calls, Ok(Some(p.result.value)))
  }

  method StartMission(db: Db, gw: Gateway, missionId: Id, username: string, now: Instant)
    returns (r: Result<Option<string>>)
    requires KeysUnique(db.cadets)
    modifies db`progress, gw
    ensures db.progress == StartSpec(old(db.missions), old(db.cadets), old(db.progress), gw.remote, gw.mode, missionId, username, now).state
    ensures gw.calls == old(gw.calls) + StartSpec(old(db.missions), old(db.cadets), old(db.progress), gw.remote, gw.mode, missionId, username, now).calls
    ensures r == StartSpec(old(db.missions), old(db.cadets), old(db.progress), gw.remote, gw.mode, missionId, username, now).result
  {
    if missionId !in db.missions {
      assert gw.calls == old(gw.calls) + [];
      return Err(ResourceNotFound);
    }
    var cadet := db.FindByUsername(username);
    if cadet.None? {
      assert gw.calls == old(gw.calls) + [];
      return Err(ResourceNotFound);
    }
    var key := (cadet.value, missionId);
    if key in db.progress {
      assert gw.calls == old(gw.calls) + [];
      return Ok(db.progress[key].repositoryUrl);
    }
    var name := db.cadets[cadet.value].username;
    var repo := WorkingRepoName(name, missionId);
    var source := ExtractRepoName(db.missions[missionId].templateRepositoryUrl);
    if source.None? {
      assert gw.calls == old(gw.calls) + [];
      return Err(ExternalService);
    }
    var url := gw.Provision(repo, (gw.remote.admin, source.value), name);
    if url.Err? {
      return Err(url.error);
    }
    db.progress := db.progress[key := StartedRecord(url.value, now)];
    r := Ok(Some(url.value));
  }

  /** Starting is idempotent: once a start has succeeded, starting again
      sends nothing, changes nothing and gives the same URL. */
  lemma StartIsIdempotent(missions: Missions, cadets: map<Id, Cadet>, progress: Progress, remote: Remote, mode: UploadMode,
    missionId: Id, username: string, now: Instant, later: Instant)
    requires KeysUnique(cadets)
    ensures var first := StartSpec(missions, cadets, progress, remote, mode, missionId, username, now);
      first.result.Ok? ==>
        StartSpec(missions, cadets, first.state, remote, mode, missionId, username, later)
          == Effect(first.state, [], first.result)
  {
  }

  /** A first start creates the private working copy named after the cadet
      and the mission, copies the mission's repository into it, grants the
      cadet write access, in that order, and only then saves an in-progress
      record started now; a failure saves nothing. */
  lemma StartProvisionsInOrder(missions: Missions, cadets: map<Id, Cadet>, progress: Progress, remote: Remote, mode: UploadMode,
    missionId: Id, username: string, now: Instant)
    requires KeysUnique(cadets)
    ensures var e := StartSpec(missions, cadets, progress, remote, mode, missionId, username, now);
      var cadet := UserByName(cadets, username);
      (e.result.Err? ==> e.state == progress) &&
      (e.result.Ok? && cadet.Some? && (cadet.value, missionId) !in progress ==>
        var repo := WorkingRepoName(username, missionId);
        var source := ExtractRepoName(missions[missionId].templateRepositoryUrl).value;
        e.calls == [CreateRepo(repo, true)] + CopyTrace(remote, mode, (remote.admin, source), repo).calls
          + [AddCollaborator(remote.admin, repo, username, "write")] &&
        e.result.value.Some? &&
        e.state == progress[(cadet.value, missionId) := StartedRecord(e.result.value.value, now)] &&
        remote.answer(CreateRepo(repo, true)) == Body(Text(e.result.value.value)))
  {
    var e := StartSpec(missions, cadets, progress, remote, mode, missionId, username, now);
    var cadet := UserByName(cadets, username);
    if missionId in missions && cadet.Some? && (cadet.value, missionId) !in progress {
      assert cadets[cadet.value].username == username;
      var repo := WorkingRepoName(username, missionId);
      var source := ExtractRepoName(missions[missionId].templateRepositoryUrl);
      if source.Some? {
        var p := ProvisionTrace(remote, mode, repo, (remote.admin, source.value), username);
        if p.result.Ok? {
          assert e == Effect(progress[(cadet.value, missionId) := StartedRecord(p.result.value, now)], p.calls, Ok(Some(p.result.value)));
        } else {
          assert e.state == progress;
        }
      }
    }
  }

  /** A start sends nothing, or exactly the provisioning of the cadet's
      working copy from the mission's repository. */
  lemma StartSendsProvisioning(missions: Missions, cadets: map<Id, Cadet>, progress: Progress, remote: Remote,
    mode: UploadMode, missionId: Id, username: string, now: Instant)
    requires KeysUnique(cadets)
    ensures var e := StartSpec(missions, cadets, progress, remote, mode, missionId, username, now);
      e.calls == [] ||
      (missionId in missions && ExtractRepoName(missions[missionId].templateRepositoryUrl).Some? &&
       e.calls == ProvisionTrace(remote, mode, WorkingRepoName(username, missionId),
         (remote.admin, ExtractRepoName(missions[missionId].templateRepositoryUrl).value), username).calls)
  {
    var e := StartSpec(missions, cadets, progress, remote, mode, missionId, username, now);
    var cadet := UserByName(cadets, username);
    if missionId in missions && cadet.Some? && (cadet.value, missionId) !in progress {
      assert cadets[cadet.value].username == username;
      var source := ExtractRepoName(missions[missionId].templateRepositoryUrl);
      if source.Some? {
        var p := ProvisionTrace(remote, mode, WorkingRepoName(username, missionId), (remote.admin, source.value), username);
        assert e.calls == p.calls;
      }
    }
  }

  /** A first start as written, into a working copy that holds no file yet,
      writes no file of the mission's repository into it. */
  lemma StartAsWrittenCopiesNothing(missions: Missions, cadets: map<Id, Cadet>, progress: Progress, remote: Remote,
    missionId: Id, username: string, now: Instant)
    requires KeysUnique(cadets)
    requires NoFileIn(remote, WorkingRepoName(username, missionId))
    ensures forall c :: c in StartSpec(missions, cadets, progress, remote, AsWritten, missionId, username, now).calls ==> !IsWrite(c)
  {
    StartSendsProvisioning(missions, cadets, progress, remote, AsWritten, missionId, username, now);
    if missionId in missions && ExtractRepoName(missions[missionId].templateRepositoryUrl).Some? {
      ProvisionAsWrittenWritesNothing(remote, WorkingRepoName(username, missionId),
        (remote.admin, ExtractRepoName(missions[missionId].templateRepositoryUrl).value), username);
    }
  }

  // ---------------------------------------------------------------- deleteMission

  /** The checks of deleteMission; the result is the acting cadet. */
  ghost function DeleteChecks(missions: Missions, cadets: map<Id, Cadet>, roles: map<Id, Role>,
    perms: map<Id, Permission>, username: string, id: Id): (r: Result<Id>)
    requires KeysUnique(cadets)
    ensures r.Ok? ==> id in missions
  {
    var actor := UserByName(cadets, username);
    if actor.None? then Err(ResourceNotFound)
    else if id !in missions then Err(ResourceNotFound)
    else
      var gate := Gate(missions[id].owner, actor.value, Authorities(cadets[actor.value].roles, roles, perms), DeleteAny);
      if gate.Err? then Err(gate.error) else Ok(actor.value)
  }

  /** The specification of deleteMission: the repository delete is attempted
      when a name can be read from the URL, its outcome is ignored; then the
      record is deleted and the ranks above it moved down. The database
      refuses the delete while a progress record still points at the
      mission, and the whole change is rolled back; the repository delete
      has happened all the same. */
  ghost function DeleteSpec(missions: Missions, progress: Progress, cadets: map<Id, Cadet>, roles: map<Id, Role>,
    perms: map<Id, Permission>, remote: Remote, username: string, id: Id): Effect<Missions, ()>
    requires KeysUnique(cadets)
  {
    var checks := DeleteChecks(missions, cadets, roles, perms, username, id);
    if checks.Err? then Effect(missions, [], Err(checks.error))
    else DeleteWork(missions, progress, remote, id)
  }

  /** The best-effort delete of the repository a mission URL names: sent
      when a name can be read from the URL, nothing otherwise. */
  function RepoDeleteCalls(remote: Remote, url: string): seq<Call>
  {
    var name := ExtractRepoName(url);
    if name.Some? then [DeleteRepo(remote.admin, name.value)] else []
  }

  /** What deleteMission does once the checks have passed. */
  function DeleteWork(missions: Missions, progress: Progress, remote: Remote, id: Id): Effect<Missions, ()>
    requires id in missions
  {
    var m := missions[id];
    var calls := RepoDeleteCalls(remote, m.templateRepositoryUrl);
    if MissionHasProgress(progress, id) then Effect(missions, calls, Err(DataIntegrity))
    else Effect(ShiftedDown(missions - {id}, m.starSystem, m.orderInSystem), calls, Ok(()))
  }

  method DeleteMission(db: Db, gw: Gateway, caller: Caller, id: Id) returns (r: Result<()>)
    requires KeysUnique(db.cadets)
    modifies db`missions, gw
    ensures db.missions == DeleteSpec(old(db.missions), old(db.progress), old(db.cadets), old(db.roles), old(db.permissions), gw.remote, caller.username, id).state
    ensures gw.calls == old(gw.calls) + DeleteSpec(old(db.missions), old(db.progress), old(db.cadets), old(db.roles), old(db.permissions), gw.remote, caller.username, id).calls
    ensures r == DeleteSpec(old(db.missions), old(db.progress), old(db.cadets), old(db.roles), old(db.permissions), gw.remote, caller.username, id).result
  {
    var actor := db.FindByUsername(caller.username);
    if actor.None? {
      assert gw.calls == old(gw.calls) + [];
      return Err(ResourceNotFound);
    }
    if id !in db.missions {
      assert gw.calls == old(gw.calls) + [];
      return Err(ResourceNotFound);
    }
    var authorities := db.AuthoritiesOf(actor.value);
    var gate := Gate(db.missions[id].owner, actor.value, authorities, DeleteAny);
    if gate.Err? {
      assert gw.calls == old(gw.calls) + [];
      return Err(gate.error);
    }
    r := DeleteAfterChecks(db, gw, id);
  }

  /** The part of deleteMission after the checks. */
  method DeleteAfterChecks(db: Db, gw: Gateway, id: Id) returns (r: Result<()>)
    requires id in db.missions
    modifies db`missions, gw
    ensures db.missions == DeleteWork(old(db.missions), db.progress, gw.remote, id).state
    ensures gw.calls == old(gw.calls) + DeleteWork(old(db.missions), db.progress, gw.remote, id).calls
    ensures r == DeleteWork(old(db.missions), db.progress, gw.remote, id).result
  {
    var m := db.missions[id];
    DeleteRepositoryOf(gw, m.templateRepositoryUrl);
    if MissionHasProgress(db.progress, id) {
      return Err(DataIntegrity);
    }
    db.missions := db.missions - {id};
    db.ShiftOrdersDown(m.starSystem, m.orderInSystem);
    r := Ok(());
  }

  /** Delete the repository the URL names, ignoring the outcome. */
  method DeleteRepositoryOf(gw: Gateway, url: string)
    modifies gw
    ensures gw.calls == old(gw.calls) + RepoDeleteCalls(gw.remote, url)
  {
    var name := ExtractRepoName(url);
    if name.Some? {
      var ignored := gw.DeleteAdminRepository(name.value);
    } else {
      assert gw.calls == old(gw.calls) + [];
    }
  }

  /** The repository delete is best effort: whatever the remote answers, the
      outcome is the same, and a permitted delete succeeds exactly when no
      progress record points at the mission; otherwise it fails with a 500
      and the table is unchanged. */
  lemma DeleteIgnoresRemote(missions: Missions, progress: Progress, cadets: map<Id, Cadet>, roles: map<Id, Role>,
    perms: map<Id, Permission>, remote: Remote, other: Remote, username: string, id: Id)
    requires KeysUnique(cadets) && other.admin == remote.admin
    ensures var e := DeleteSpec(missions, progress, cadets, roles, perms, remote, username, id);
      e == DeleteSpec(missions, progress, cadets, roles, perms, other, username, id) &&
      (e.result.Ok? <==> DeleteChecks(missions, cadets, roles, perms, username, id).Ok? && !MissionHasProgress(progress, id)) &&
      (DeleteChecks(missions, cadets, roles, perms, username, id).Ok? && MissionHasProgress(progress, id) ==>
        e.result == Err(DataIntegrity) && e.state == missions && StatusOf(DataIntegrity) == 500)
  {
  }

  /** A permitted delete removes exactly the mission, keeps ranks distinct and
      closes the gap it leaves in its system. */
  lemma {:induction false} DeleteKeepsRanks(missions: Missions, progress: Progress, cadets: map<Id, Cadet>, roles: map<Id, Role>,
    perms: map<Id, Permission>, remote: Remote, username: string, id: Id, k: int)
    requires KeysUnique(cadets) && RanksDistinct(missions)
    ensures var e := DeleteSpec(missions, progress, cadets, roles, perms, remote, username, id);
      e.result.Ok? ==>
        e.state.Keys == missions.Keys - {id} && RanksDistinct(e.state) &&
        var s, d := missions[id].starSystem, missions[id].orderInSystem;
        (k in RanksIn(e.state, s) <==> (k < d && k in RanksIn(missions, s)) || (k >= d && k + 1 in RanksIn(missions, s)))
  {
    var e := DeleteSpec(missions, progress, cadets, roles, perms, remote, username, id);
    if e.result.Ok? {
      DeleteThenShiftDownKeepsDistinct(missions, id);
      DeleteThenShiftDownClosesGap(missions, id, k);
    }
  }

  // ---------------------------------------------------------------- the remaining operations

  /** A mission after setVerificationStatus and save: the status is the new
      one, and the update timestamp moves only when the status changed,
      since an entity with no changed field is not written back. */
  function WithStatus(m: Mission, status: VerificationStatus, now: Instant): (r: Mission)
    ensures r.verificationStatus == status
    ensures r == m <==> m.verificationStatus == status
    ensures r != m ==> r == m.(verificationStatus := status, updatedAt := now)
  {
    if m.verificationStatus == status then m else m.(verificationStatus := status, updatedAt := now)
  }

  /** updateMissionVerificationStatus: any status may be written over any
      other; re-sending the current status changes nothing. */
  method UpdateVerificationStatus(db: Db, id: Id, status: VerificationStatus, now: Instant) returns (r: Result<()>)
    modifies db`missions
    ensures r.Err? <==> id !in old(db.missions)
    ensures r.Err? ==> r.error == ResourceNotFound && db.missions == old(db.missions)
    ensures r.Ok? ==> db.missions == old(db.missions)[id := WithStatus(old(db.missions)[id], status, now)]
  {
    if id !in db.missions {
      return Err(ResourceNotFound);
    }
    db.missions := db.missions[id := WithStatus(db.missions[id], status, now)];
    r := Ok(());
  }

  /** getMissionsByStarSystem: the listing, mapped to responses. */
  function MissionsBySystem(missions: Missions, cadets: map<Id, Cadet>, s: Id, admin: bool): (rs: seq<MissionResponse>)
    ensures |rs| == |Listing(missions, s)|
  {
    var l := Listing(missions, s);
    seq(|l|, i requires 0 <= i < |l| => MapToResponse(l[i], missions[l[i]], cadets, admin))
  }

  /** The responses are exactly the system's missions, each once, by
      ascending rank, and carry the URL only for administrators. */
  lemma MissionsBySystemCorrect(missions: Missions, cadets: map<Id, Cadet>, s: Id, admin: bool)
    ensures forall r :: r in MissionsBySystem(missions, cadets, s, admin) ==>
      r.id in missions && r.starSystemId == s && (r.templateRepositoryUrl.Some? <==> admin)
    ensures forall id :: id in missions && missions[id].starSystem == s ==>
      exists r :: r in MissionsBySystem(missions, cadets, s, admin) && r.id == id
    ensures var rs := MissionsBySystem(missions, cadets, s, admin);
      forall i, j :: 0 <= i < j < |rs| ==> rs[i].id != rs[j].id
    ensures var rs := MissionsBySystem(missions, cadets, s, admin);
      forall i :: 0 < i < |rs| ==> rs[i - 1].orderInSystem <= rs[i].orderInSystem
  {
    ListingCorrect(missions, s);
    MissionsBySystemElements(missions, cadets, s, admin);
    ResponsesFollowListing(missions, cadets, s, admin, Listing(missions, s), MissionsBySystem(missions, cadets, s, admin));
  }

  lemma MissionsBySystemElements(missions: Missions, cadets: map<Id, Cadet>, s: Id, admin: bool)
    ensures var l := Listing(missions, s); var rs := MissionsBySystem(missions, cadets, s, admin);
      |rs| == |l| && forall i :: 0 <= i < |l| ==> l[i] in missions && rs[i] == MapToResponse(l[i], missions[l[i]], cadets, admin)
  {
    ListingCorrect(missions, s);
  }

  /** Responses made one by one from a listing inherit its properties. */
  lemma ResponsesFollowListing(missions: Missions, cadets: map<Id, Cadet>, s: Id, admin: bool,
                               l: seq<Id>, rs: seq<MissionResponse>)
    requires forall i :: 0 <= i < |l| ==> l[i] in missions && missions[l[i]].starSystem == s
    requires forall id :: id in missions && missions[id].starSystem == s ==> id in l
    requires forall i, j :: 0 <= i < j < |l| ==> l[i] != l[j]
    requires forall i :: 0 < i < |l| ==> missions[l[i-1]].orderInSystem <= missions[l[i]].orderInSystem
    requires |rs| == |l| && forall i :: 0 <= i < |l| ==> rs[i] == MapToResponse(l[i], missions[l[i]], cadets, admin)
    ensures forall r :: r in rs ==> r.id in missions && r.starSystemId == s && (r.templateRepositoryUrl.Some? <==> admin)
    ensures forall id :: id in missions && missions[id].starSystem == s ==> exists r :: r in rs && r.id == id
    ensures forall i, j :: 0 <= i < j < |rs| ==> rs[i].id != rs[j].id
    ensures forall i :: 0 < i < |rs| ==> rs[i - 1].orderInSystem <= rs[i].orderInSystem
  {
    forall id | id in missions && missions[id].starSystem == s
      ensures exists r :: r in rs && r.id == id
    {
      var i :| 0 <= i < |l| && l[i] == id;
      assert rs[i] in rs && rs[i].id == id;
    }
  }
}
