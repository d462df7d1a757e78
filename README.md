# Legymernok mission platform: a verified model of its core

Legymernok is a training platform. Cadets (the users) work through
missions. Missions are grouped into star systems and ranked inside each
system. Every mission has a template repository on a Gitea server. Starting
a mission gives the cadet a private working copy of that template, and a
CI run reports the verification status of the template back through a
callback. Administrators manage cadets, roles and permissions.

This project models the backend's service layer and the text processors of
the admin frontend. Each part has its own module:

- `Store`: the persistence layer. A `Db` object holds one map per table, and
  its methods are the repository operations the services call.
- `MissionRanks`: the mission table's JPQL queries and its bulk rank
  shifts.
- `Gitea`: the Git host, as a `Gateway` object. It records every request it
  sends, and a fixed `Remote` answers each request. Statements such as "the
  checks come before any Gitea request" and "create, copy, grant, in that
  order" are facts about this call log.
- The services `MissionService`, `StarSystemService`, `RoleService`,
  `CadetService` and `Verification`, plus the seed in `DataInitializer`.
  Each state-changing operation has two parts:
  - a specification function, which returns the table it leaves, the Gitea
    requests it sends and its result;
  - a method over `Db` and `Gateway`, proved to do exactly that.

  Lemmas then prove what the source promises about the specification:
  - ranks stay distinct within a star system;
  - refusals are clean;
  - starting a mission is idempotent;
  - no dangling role references are left;
  - the seed is find-or-create.
- `Authority`: effective authorities (role names together with permission
  names) and the ownership-or-override gate built on them.
- `Errors`: the exception kinds and the handler's status mapping.
- `LogFilter`, `LogService`, `LogList`, `Changelog`, `RoleEdit`: the
  request-body redaction, the log tail, the log-line parser with its live
  buffer, the changelog splitter, and the role editor's permission toggle.
  `Text` holds the string operations they share.

`uploadFile` does not do what its documentation says. When the file probe
answers 404, the code as written returns null without creating the file.
The `Gateway` therefore carries an upload mode:
- `AsWritten` runs the body as written.
- `Corrected` creates the missing file, as documented.

The copy, the forge and the start are proved for either mode. Lemmas show
what the code as written does: the repositories created by the forge and
by a start stay empty. Further lemmas show that the corrected upload writes
every file.

No foreign key cascades. The database therefore refuses these deletes, with
a `DataIntegrity` error (500):
- a star system that still has missions;
- a mission that progress records point at;
- a cadet who owns a mission or a star system.

The model refuses the same deletes. The update time of a mission moves only
when its verification status actually changes, since an unchanged entity is
not written back.

Ids are natural numbers. Times are integers passed in as parameters. Each
service call is one transaction: a call that ends in an exception leaves
the tables as they were.

## Model

| member | source | states |
|---|---|---|
| Errors.StatusOf | backend/src/main/java/com/legymernok/backend/exception/GlobalExceptionHandler.java:16-56 | 401 exactly for bad credentials, 404 for not found, 409 for conflict, 502 for external-service failures, 403 for both authorization exceptions, 500 exactly for every kind without a handler (an unsupported template language included), and never 400 |
| Errors.BuildResponse | backend/src/main/java/com/legymernok/backend/exception/GlobalExceptionHandler.java:58-65 | the body's status equals the response code chosen for the exception; the error phrase belongs to that code; message and timestamp are the ones given |
| Authority.GetAuthorities | backend/src/main/java/com/legymernok/backend/model/cadet/Cadet.java:61-70 | the set the nested loops fill is exactly the union, over the held roles, of each role's name and its permissions' names |
| Authority.AuthorityWitness | backend/src/main/java/com/legymernok/backend/model/cadet/Cadet.java:62-69 | an authority is held if and only if some held role has that name, or some held role carries a permission of that name |
| Authority.NoRolesNoAuthorities | backend/src/main/java/com/legymernok/backend/model/cadet/Cadet.java:62-69 | a cadet with no roles has no authorities |
| Authority.AuthoritiesMonotone | backend/src/main/java/com/legymernok/backend/model/cadet/Cadet.java:62-69 | adding roles never removes an authority |
| Authority.GrantRole | backend/src/main/java/com/legymernok/backend/model/cadet/Cadet.java:62-69 | granting a role adds exactly its name and its permissions' names (a name already held is not duplicated) |
| Authority.AuthoritiesAddRole | backend/src/main/java/com/legymernok/backend/model/cadet/Cadet.java:63-68 | one more role adds exactly what that role contributes |
| Authority.Gate | backend/src/main/java/com/legymernok/backend/service/mission/MissionService.java:79-81 | the call passes exactly when the resource has an owner who is the actor, or the actor holds the override; a refusal is UnauthorizedAccess; an ownerless resource fails with a null reference |
| Authority.AccountStatusOf | backend/src/main/java/com/legymernok/backend/model/cadet/Cadet.java:82-100 | all four account flags are true |
| Entities.StatusesExhaustive | backend/src/main/java/com/legymernok/backend/model/mission/VerificationStatus.java:3-9 | there are exactly five statuses, each listed once, and distinct statuses have distinct names |
| Entities.StartedRecord | backend/src/main/java/com/legymernok/backend/model/ConnectTable/CadetMission.java:43-46 | a freshly started progress record is IN_PROGRESS, holds the working-copy URL, has its start time set and no completion time |
| MissionRanks.ProbesScopedToSystem | backend/src/main/java/com/legymernok/backend/repository/mission/MissionRepository.java:20-22 | the name and rank probes look only at missions of the named system |
| MissionRanks.ShiftedUpExact | backend/src/main/java/com/legymernok/backend/repository/mission/MissionRepository.java:24-26 | shiftOrdersUp(s, k) adds one to the rank of exactly the missions of s ranked k or higher; everything else is unchanged |
| MissionRanks.ShiftedUpFreesRank | backend/src/main/java/com/legymernok/backend/repository/mission/MissionRepository.java:24-26 | after the up-shift rank k is free in s, and distinct ranks stay distinct |
| MissionRanks.ShiftedDown | backend/src/main/java/com/legymernok/backend/service/mission/MissionService.java:300 | the assumed down-shift keeps the set of missions |
| MissionRanks.DeleteThenShiftDownKeepsDistinct | backend/src/main/java/com/legymernok/backend/service/mission/MissionService.java:296-300 | deleting a mission and then shifting its system down keeps ranks distinct |
| MissionRanks.DeleteThenShiftDownClosesGap | backend/src/main/java/com/legymernok/backend/service/mission/MissionService.java:296-300 | after the delete and down-shift, the ranks of the system are the old ones below the deleted rank, and each old rank above it minus one |
| MissionRanks.MaxOrder | backend/src/main/java/com/legymernok/backend/repository/mission/MissionRepository.java:17-18 | 0 for a system without missions, else the largest rank in the system |
| MissionRanks.NextOrder | backend/src/main/java/com/legymernok/backend/service/mission/MissionService.java:255-257 | 1 for an empty system; otherwise above every rank of the system, and one past a rank it holds |
| MissionRanks.NextOrderIsFree | backend/src/main/java/com/legymernok/backend/service/mission/MissionService.java:255-257 | the next order is never taken in its system |
| MissionRanks.Sorted | backend/src/main/java/com/legymernok/backend/repository/mission/MissionRepository.java:15 | the listing has one entry per mission, draws from the given missions and ascends by rank |
| MissionRanks.SortedIsPermutation | backend/src/main/java/com/legymernok/backend/repository/mission/MissionRepository.java:15 | every mission is listed, and none twice |
| MissionRanks.ListingCorrect | backend/src/main/java/com/legymernok/backend/repository/mission/MissionRepository.java:15 | the listing of a system holds exactly its missions, each once, by ascending rank |
| MissionRanks.ShiftExamples | backend/src/main/java/com/legymernok/backend/repository/mission/MissionRepository.java:24-26 | on ranks {1, 2, 3}, shifting up at 2 gives {1, 3, 4}; on ranks {1, 2, 3, 5}, deleting rank 2 and shifting down gives {1, 2, 4} |
| Store.UserByName | backend/src/main/java/com/legymernok/backend/service/mission/MissionService.java:344-348 | the cadet with that username when there is one (and it is unique), none when no cadet has it |
| Store.Db.FindByUsername | backend/src/main/java/com/legymernok/backend/service/starsystem/StarSystemService.java:153-157 | the repository lookup returns exactly the cadet the username names |
| Store.Db.AuthoritiesOf | backend/src/main/java/com/legymernok/backend/service/mission/MissionService.java:350-354 | a stored cadet's authorities over the current role and permission tables |
| Store.Db.ShiftOrdersUp | backend/src/main/java/com/legymernok/backend/repository/mission/MissionRepository.java:24-26 | the bulk update leaves the mission table shifted up at (s, k) and changes no other table |
| Store.Db.ShiftOrdersDown | backend/src/main/java/com/legymernok/backend/service/mission/MissionService.java:300 | the assumed bulk update leaves the mission table shifted down at (s, d) and changes no other table |
| Gitea.CreateUserOutcome | backend/src/main/java/com/legymernok/backend/integration/GiteaService.java:72-103 | createGiteaUser succeeds exactly when the reply has a numeric id, and returns it; every other reply becomes ExternalService |
| Gitea.DeleteOutcome | backend/src/main/java/com/legymernok/backend/integration/GiteaService.java:111-125 | deleteGiteaUser and deleteRepository tolerate a missing target and wrap every other failure as ExternalService |
| Gitea.CreateRepoOutcome | backend/src/main/java/com/legymernok/backend/integration/GiteaService.java:134-163 | createEmptyRepository returns the clone URL exactly when the reply carries one as a string; a conflict, an error or a missing URL becomes ExternalService |
| Gitea.GetRepoOutcome | backend/src/main/java/com/legymernok/backend/integration/GiteaService.java:404-418 | present exactly for a reply with a body; absent for 404 or an empty reply; anything else becomes ExternalService |
| Gitea.CollaboratorOutcome | backend/src/main/java/com/legymernok/backend/integration/GiteaService.java:433-444 | addCollaborator succeeds on any success reply, and any failure escapes unwrapped |
| Gitea.WriteOutcome | backend/src/main/java/com/legymernok/backend/integration/GiteaService.java:263-275 | a write succeeds exactly when the reply has a body whose URL entry is absent or a string |
| Gitea.PostTrace | backend/src/main/java/com/legymernok/backend/integration/GiteaService.java:276-284 | the create branch: one POST of the content to that path, whose reply decides the result as a write; its failure escapes unwrapped |
| Gitea.PutTrace | backend/src/main/java/com/legymernok/backend/integration/GiteaService.java:264-274 | the update branch: one PUT of the content with the probed sha; a 404 falls through to the create branch, any other failure is ExternalService |
| Gitea.UploadTrace | backend/src/main/java/com/legymernok/backend/integration/GiteaService.java:254-290 | uploadFile in either mode: probe first; a sha sends the update; a failed probe is ExternalService; a probe answering 404 ends the upload as written with success and no URL, and sends the create when corrected; any other probe reply ends with no URL |
| Gitea.UploadWritesContent | backend/src/main/java/com/legymernok/backend/integration/GiteaService.java:254-290 | the corrected upload probes the file first, addresses only that file and sends at most three requests; when it succeeds and the probe allows a write (a 404 included), its last request writes the given content and the remote accepted it |
| Gitea.UploadAsWrittenSkipsMissingFile | backend/src/main/java/com/legymernok/backend/integration/GiteaService.java:263-275 | when the probe answers 404, the upload as written sends only the probe, reports success with no URL and writes nothing, while the corrected upload writes the file |
| Gitea.UploadFixOnlyChangesMissingFile | backend/src/main/java/com/legymernok/backend/integration/GiteaService.java:263-302 | the corrected upload and the upload as written agree whenever the probe does not answer 404 |
| Gitea.NodeTrace | backend/src/main/java/com/legymernok/backend/integration/GiteaService.java:210-219 | one listing entry in either mode: a file is read and, when it has content, uploaded at the same path under admin/target; a directory is listed and walked; other entries send nothing |
| Gitea.EntriesTrace | backend/src/main/java/com/legymernok/backend/integration/GiteaService.java:230-242 | a listing walked entry by entry, in order, stopping at the first failure |
| Gitea.CopyTrace | backend/src/main/java/com/legymernok/backend/integration/GiteaService.java:205-225 | in either upload mode, the copy first lists the source root, and every failure is wrapped as ExternalService; each file goes through the upload of that mode, so the copy as written costs one 404 probe per file in an empty target |
| Gitea.NodeCopiesFiles | backend/src/main/java/com/legymernok/backend/integration/GiteaService.java:210-219 | with the corrected upload, a successful walk of one entry wrote each readable file below it, at the same path under admin/target, whenever the file's probe allows a write (a 404 included, which only the corrected upload turns into a write) |
| Gitea.EntriesCopyFiles | backend/src/main/java/com/legymernok/backend/integration/GiteaService.java:230-242 | the same, with the corrected upload, for a whole listing walked in order |
| Gitea.NodeConfined | backend/src/main/java/com/legymernok/backend/integration/GiteaService.java:210-219 | in either upload mode, every request of a walk reads from the source repository or addresses admin/target |
| Gitea.EntriesConfined | backend/src/main/java/com/legymernok/backend/integration/GiteaService.java:230-242 | the same, in either upload mode, for a whole listing |
| Gitea.CopyCorrect | backend/src/main/java/com/legymernok/backend/integration/GiteaService.java:205-242 | the corrected copy reads only the source and writes only admin/target; when it succeeds it wrote every readable file whose probe allows a write |
| Gitea.NodeAsWrittenWritesNothing | backend/src/main/java/com/legymernok/backend/integration/GiteaService.java:210-219 | as written, into a target that holds no file, a walk of one entry succeeds and sends no write |
| Gitea.EntriesAsWrittenWritesNothing | backend/src/main/java/com/legymernok/backend/integration/GiteaService.java:230-242 | the same for a whole listing |
| Gitea.CopyAsWrittenWritesNothing | backend/src/main/java/com/legymernok/backend/integration/GiteaService.java:205-242 | the copy as written into a target that holds no file, as a freshly created repository is, succeeds and sends no write at all, whatever the template holds |
| Gitea.EntriesStopAtFailure | backend/src/main/java/com/legymernok/backend/integration/GiteaService.java:210-219 | in either upload mode, once an entry has failed, the rest of the listing is not visited |
| Gitea.EntriesPrefix | backend/src/main/java/com/legymernok/backend/integration/GiteaService.java:230-242 | while no entry has failed, walking one more entry appends exactly that entry's requests |
| Gitea.EntriesOne | backend/src/main/java/com/legymernok/backend/integration/GiteaService.java:230-242 | walking a one-entry listing is handling that entry |
| Gitea.TemplateFor | backend/src/main/java/com/legymernok/backend/integration/GiteaService.java:374-382 | "javascript" in any case picks the JavaScript template, then "python" the Python one; no template for anything else |
| Gitea.TemplateIgnoresCase | backend/src/main/java/com/legymernok/backend/integration/GiteaService.java:374-382 | "JavaScript" and "PYTHON" are accepted and "java" is refused |
| Gitea.ProvisionTrace | backend/src/main/java/com/legymernok/backend/integration/GiteaService.java:385-394 | provisioning in either mode: create the private repository, copy the template into it, grant the user write access, stopping at the first failure; the result is the create's clone URL |
| Gitea.MissionRepoTrace | backend/src/main/java/com/legymernok/backend/integration/GiteaService.java:367-395 | createMissionRepository: no template is IllegalArgument with nothing sent; otherwise provisioning of the repository named after the mission |
| Gitea.MissionRepoOrder | backend/src/main/java/com/legymernok/backend/integration/GiteaService.java:367-395 | in either upload mode: an unsupported language is refused with IllegalArgument before any request; otherwise the private repository named after the mission is created, the template is copied into it by that mode's copy and the user is granted write access, in that order, and the URL returned is the one the create answered with |
| Gitea.ProvisionStartsWithCreate | backend/src/main/java/com/legymernok/backend/integration/GiteaService.java:385 | in either upload mode, whatever fails, the first request of provisioning is the create, and a failure is ExternalService or an unwrapped remote failure |
| Gitea.ProvisionAsWrittenWritesNothing | backend/src/main/java/com/legymernok/backend/integration/GiteaService.java:385-394 | provisioning as written into a repository that holds no file sends no write: the template's files never reach it |
| Gitea.Gateway.CreateGiteaUser | backend/src/main/java/com/legymernok/backend/integration/GiteaService.java:72-103 | sends one create-user request and returns its outcome |
| Gitea.Gateway.DeleteGiteaUser | backend/src/main/java/com/legymernok/backend/integration/GiteaService.java:111-125 | sends one delete-user request and returns its outcome |
| Gitea.Gateway.CreateEmptyRepository | backend/src/main/java/com/legymernok/backend/integration/GiteaService.java:134-163 | sends one create-repository request and returns its outcome |
| Gitea.Gateway.DeleteRepository | backend/src/main/java/com/legymernok/backend/integration/GiteaService.java:171-185 | sends one delete-repository request and returns its outcome |
| Gitea.Gateway.DeleteAdminRepository | backend/src/main/java/com/legymernok/backend/integration/GiteaService.java:192-194 | deletes under the admin account |
| Gitea.Gateway.GetRepository | backend/src/main/java/com/legymernok/backend/integration/GiteaService.java:404-418 | sends one get-repository request and returns its outcome |
| Gitea.Gateway.GrantCollaborator | backend/src/main/java/com/legymernok/backend/integration/GiteaService.java:433-444 | sends one add-collaborator request for the admin's repository and returns its outcome |
| Gitea.Gateway.UploadFile | backend/src/main/java/com/legymernok/backend/integration/GiteaService.java:254-290 | sends exactly the requests of the upload in the gateway's mode (as written: only the probe when it answers 404) and returns its result |
| Gitea.Gateway.CopyEntry | backend/src/main/java/com/legymernok/backend/integration/GiteaService.java:210-219 | handles one entry exactly as the walk in the gateway's upload mode specifies |
| Gitea.Gateway.CopyListing | backend/src/main/java/com/legymernok/backend/integration/GiteaService.java:230-242 | the loop over a listing sends the walk's requests in the gateway's upload mode, in order, and stops at the first failure |
| Gitea.Gateway.CopyRepositoryContents | backend/src/main/java/com/legymernok/backend/integration/GiteaService.java:205-225 | sends exactly the copy's requests in the gateway's upload mode and returns its result |
| Gitea.Gateway.Provision | backend/src/main/java/com/legymernok/backend/integration/GiteaService.java:385-394 | create, the copy in the gateway's upload mode and grant, stopping at the first failure, as provisioning specifies |
| Gitea.Gateway.CreateMissionRepository | backend/src/main/java/com/legymernok/backend/integration/GiteaService.java:367-395 | sends exactly the requests of createMissionRepository in the gateway's upload mode and returns its result |
| MissionService.MapToResponse | backend/src/main/java/com/legymernok/backend/service/mission/MissionService.java:321-342 | administrators see the template URL and no one else does; id, owner and rank are those of the mission |
| MissionService.RedactionHidesUrl | backend/src/main/java/com/legymernok/backend/service/mission/MissionService.java:321-326 | a non-administrator's response does not depend on the template URL, and an administrator's does |
| MissionService.LastSlash | backend/src/main/java/com/legymernok/backend/service/mission/MissionService.java:313 | the index of the last '/', or -1 when there is none |
| MissionService.ExtractRepoName | backend/src/main/java/com/legymernok/backend/service/mission/MissionService.java:310-319 | none exactly for an empty URL; otherwise a name without '/' |
| MissionService.ExtractRepoNameRoundTrip | backend/src/main/java/com/legymernok/backend/service/mission/MissionService.java:310-319 | the name comes back from ".../name.git", and from ".../name" when the name does not itself end in ".git" |
| MissionService.ExtractRepoNameTrailingSlash | backend/src/main/java/com/legymernok/backend/service/mission/MissionService.java:310-319 | a URL ending in '/' gives the empty name, not "no name" |
| MissionService.UploadsTrace | backend/src/main/java/com/legymernok/backend/service/mission/MissionService.java:102-107 | the request's files uploaded one after the other into admin/repo in either mode, stopping at the first failure |
| MissionService.UploadsStopAtFailure | backend/src/main/java/com/legymernok/backend/service/mission/MissionService.java:102-107 | in either upload mode, after a failed upload the remaining files are never sent |
| MissionService.UploadsWriteEveryFile | backend/src/main/java/com/legymernok/backend/service/mission/MissionService.java:102-107 | with the corrected upload, when all uploads succeed, every file whose probe allows a write was written with its content |
| MissionService.UploadsAsWrittenWriteNothing | backend/src/main/java/com/legymernok/backend/service/mission/MissionService.java:102-107 | as written, into a repository that holds no file, all uploads succeed and none of them writes |
| MissionService.UploadFiles | backend/src/main/java/com/legymernok/backend/service/mission/MissionService.java:102-107 | the loop sends the uploads of the gateway's mode in order and stops at the first failure |
| MissionService.ForgeChecks | backend/src/main/java/com/legymernok/backend/service/mission/MissionService.java:73-86 | a passing check yields the stored cadet who is calling |
| MissionService.CheckForge | backend/src/main/java/com/legymernok/backend/service/mission/MissionService.java:73-86 | the checks against the stored tables: system found, then the gate, then the name |
| MissionService.ForgeTrace | backend/src/main/java/com/legymernok/backend/service/mission/MissionService.java:96-107 | the forge's requests: createMissionRepository for the new mission, then the uploads; the result is the clone URL, or the first failure |
| MissionService.MakeRoom | backend/src/main/java/com/legymernok/backend/service/mission/MissionService.java:89-92 | shift the system's missions up from the requested rank when that rank is taken, else nothing |
| MissionService.ForgeWork | backend/src/main/java/com/legymernok/backend/service/mission/MissionService.java:89-132 | after the checks: make room, send, save the PENDING mission owned by the caller; a failed send leaves the mission table as it was, the requests sent staying sent |
| MissionService.ForgeSpec | backend/src/main/java/com/legymernok/backend/service/mission/MissionService.java:73-133 | createMissionFromForge: a failed check sends nothing and changes nothing; otherwise the forge work |
| MissionService.CreateMissionFromForge | backend/src/main/java/com/legymernok/backend/service/mission/MissionService.java:73-133 | the mission table, the Gitea requests and the result are exactly those of the forge specification in the gateway's upload mode |
| MissionService.SendForge | backend/src/main/java/com/legymernok/backend/service/mission/MissionService.java:96-107 | provisions the repository and then uploads the files, exactly as the forge trace in the gateway's upload mode says |
| MissionService.ForgeAfterChecks | backend/src/main/java/com/legymernok/backend/service/mission/MissionService.java:89-132 | after the checks: make room, send in the gateway's upload mode, save; a failed send restores the mission table; exactly as the forge work specifies |
| MissionService.MakeRoomFrees | backend/src/main/java/com/legymernok/backend/service/mission/MissionService.java:89-92 | making room keeps every record but its rank, leaves the requested rank free and keeps ranks distinct |
| MissionService.MakeRoomKeepsNames | backend/src/main/java/com/legymernok/backend/service/mission/MissionService.java:89-92 | making room keeps names distinct and does not change which names are taken |
| MissionService.PlaceKeepsDistinct | backend/src/main/java/com/legymernok/backend/service/mission/MissionService.java:113-128 | saving a record at a free rank and under a new name keeps ranks and names distinct |
| MissionService.PlaceInRoom | backend/src/main/java/com/legymernok/backend/service/mission/MissionService.java:89-128 | a mission with a new name, saved at its rank after room was made there, keeps ranks and names distinct and adds exactly its id |
| MissionService.ForgeFailureIsClean | backend/src/main/java/com/legymernok/backend/service/mission/MissionService.java:75-86 | a refusal by the checks sends nothing and changes nothing; any failure leaves the mission table as it was |
| MissionService.ForgeGateBeforeName | backend/src/main/java/com/legymernok/backend/service/mission/MissionService.java:79-86 | a caller who neither owns the system nor holds mission:create_any_system is refused before the name check and before any request |
| MissionService.ForgeKeepsInvariants | backend/src/main/java/com/legymernok/backend/service/mission/MissionService.java:89-128 | a successful forge saves the new mission, PENDING and owned by the caller, at the requested system and rank after making room; every other record keeps everything but its rank; ranks and names stay distinct |
| MissionService.ForgeAsWrittenWritesNothing | backend/src/main/java/com/legymernok/backend/service/mission/MissionService.java:96-107 | the forge as written, into its freshly created repository, sends no write: neither the template's files nor the request's reach it |
| MissionService.UpdateChecks | backend/src/main/java/com/legymernok/backend/service/mission/MissionService.java:137-165 | a passing check means the caller, the mission and the target system all exist |
| MissionService.CheckUpdate | backend/src/main/java/com/legymernok/backend/service/mission/MissionService.java:137-165 | the checks against the stored tables, in the source's order |
| MissionService.UpdateWork | backend/src/main/java/com/legymernok/backend/service/mission/MissionService.java:160-181 | after the checks: room is made at the requested rank of the target system only when the rank value changes (a value comparison, where the source compares `Integer` references), then the edited record is saved under the same id |
| MissionService.UpdateSpec | backend/src/main/java/com/legymernok/backend/service/mission/MissionService.java:137-183 | updateMission: the checks, then the work; a refusal changes nothing |
| MissionService.UpdateMission | backend/src/main/java/com/legymernok/backend/service/mission/MissionService.java:137-183 | the mission table and the result are exactly those of the update specification |
| MissionService.UpdateRefusalIsClean | backend/src/main/java/com/legymernok/backend/service/mission/MissionService.java:139-157 | a refused update changes nothing and raises the error of the failing check |
| MissionService.UpdateTouchesOnlyRanks | backend/src/main/java/com/legymernok/backend/service/mission/MissionService.java:160-181 | a successful update saves the edited fields under the same id; every other record keeps everything but its rank, which grows by one at most and only in the target system, so the system left behind is not compacted |
| MissionService.UpdateKeepsRanksDistinct | backend/src/main/java/com/legymernok/backend/service/mission/MissionService.java:160-165 | ranks stay distinct across an update that changes the rank or stays in the same system |
| MissionService.CrossSystemMoveMayDuplicateRank | backend/src/main/java/com/legymernok/backend/service/mission/MissionService.java:160 | a move to another system with the rank unchanged succeeds and leaves two missions of the target system on one rank |
| MissionService.WorkingRepoName | backend/src/main/java/com/legymernok/backend/service/mission/MissionService.java:201 | the working copy's name, "cadet-" followed by the username, '-' and the mission id |
| MissionService.StartSpec | backend/src/main/java/com/legymernok/backend/service/mission/MissionService.java:186-231 | startMission: unknown mission or cadet is NotFound; an existing record returns its URL and sends nothing; an unreadable template URL is ExternalService; otherwise provisioning of the working copy, and on success an IN_PROGRESS record |
| MissionService.StartMission | backend/src/main/java/com/legymernok/backend/service/mission/MissionService.java:186-231 | the progress table, the Gitea requests and the result are exactly those of the start specification in the gateway's upload mode |
| MissionService.StartIsIdempotent | backend/src/main/java/com/legymernok/backend/service/mission/MissionService.java:193-197 | once a start has succeeded, starting again sends nothing, changes nothing and returns the same URL |
| MissionService.StartProvisionsInOrder | backend/src/main/java/com/legymernok/backend/service/mission/MissionService.java:201-230 | in either upload mode, a first start creates the private copy "cadet-username-missionId", runs that mode's copy of the mission's repository into it and grants the cadet write access, in that order, then saves an IN_PROGRESS record with the new URL; a failure saves nothing |
| MissionService.StartSendsProvisioning | backend/src/main/java/com/legymernok/backend/service/mission/MissionService.java:201-217 | a start sends nothing, or exactly the provisioning of the cadet's working copy from the mission's repository |
| MissionService.StartAsWrittenCopiesNothing | backend/src/main/java/com/legymernok/backend/service/mission/MissionService.java:201-217 | a start as written, into a working copy that holds no file, sends no write: the cadet's copy stays empty |
| MissionService.DeleteChecks | backend/src/main/java/com/legymernok/backend/service/mission/MissionService.java:269-276 | a passing check means the mission exists |
| MissionService.DeleteSpec | backend/src/main/java/com/legymernok/backend/service/mission/MissionService.java:269-302 | deleteMission: the checks, then the work; a refusal sends nothing and changes nothing |
| MissionService.RepoDeleteCalls | backend/src/main/java/com/legymernok/backend/service/mission/MissionService.java:283-293 | the repository delete is sent exactly when a name can be read from the URL |
| MissionService.DeleteWork | backend/src/main/java/com/legymernok/backend/service/mission/MissionService.java:283-300 | after the checks: the repository delete, then the record delete and the down-shift, refused with DataIntegrity while progress records point at the mission |
| MissionService.DeleteMission | backend/src/main/java/com/legymernok/backend/service/mission/MissionService.java:269-302 | the mission table, the Gitea requests and the result are exactly those of the delete specification |
| MissionService.DeleteAfterChecks | backend/src/main/java/com/legymernok/backend/service/mission/MissionService.java:283-300 | the mission table, the requests and the result are exactly those of the delete work |
| MissionService.DeleteRepositoryOf | backend/src/main/java/com/legymernok/backend/service/mission/MissionService.java:283-293 | sends exactly the best-effort repository delete, and its outcome is dropped |
| MissionService.DeleteIgnoresRemote | backend/src/main/java/com/legymernok/backend/service/mission/MissionService.java:283-296 | whatever the remote answers to the repository delete, the outcome is the same; a permitted delete succeeds exactly when no progress record points at the mission, and otherwise fails with DataIntegrity (500) and leaves the table unchanged |
| MissionService.DeleteKeepsRanks | backend/src/main/java/com/legymernok/backend/service/mission/MissionService.java:296-300 | a permitted delete removes exactly the mission, keeps ranks distinct and closes the gap in its system |
| MissionService.WithStatus | backend/src/main/java/com/legymernok/backend/service/mission/MissionService.java:264-265 | the mission takes the status; it is unchanged exactly when the status was already that one, otherwise only the status and the update time change |
| MissionService.UpdateVerificationStatus | backend/src/main/java/com/legymernok/backend/service/mission/MissionService.java:260-266 | an unknown id is NotFound and changes nothing; otherwise only that mission changes: it takes the new status, whatever the old one was, and its update time moves only when the status actually changes |
| MissionService.MissionsBySystem | backend/src/main/java/com/legymernok/backend/service/mission/MissionService.java:248-253 | one response per listed mission |
| MissionService.MissionsBySystemCorrect | backend/src/main/java/com/legymernok/backend/service/mission/MissionService.java:248-253 | the responses are exactly the system's missions, each once, by ascending rank, with the URL shown to administrators only |
| MissionService.ResponsesFollowListing | backend/src/main/java/com/legymernok/backend/service/mission/MissionService.java:250-252 | responses mapped one by one from a listing keep its membership, uniqueness and order |
| Verification.ParseStatus | backend/src/main/java/com/legymernok/backend/web/mission/MissionVerificationController.java:38 | a status is recognised exactly when its upper case is a constant's name, and then it is that constant |
| Verification.UpperOf | backend/src/main/java/com/legymernok/backend/web/mission/MissionVerificationController.java:38 | one character upper-cased, as one to three characters |
| Verification.ToUpper | backend/src/main/java/com/legymernok/backend/web/mission/MissionVerificationController.java:38 | upper-casing never shortens a string |
| Verification.UpperOfName | backend/src/main/java/com/legymernok/backend/web/mission/MissionVerificationController.java:38 | upper-casing leaves a constant's name alone and undoes lower-casing on it |
| Verification.ParseByUpper | backend/src/main/java/com/legymernok/backend/web/mission/MissionVerificationController.java:38 | a string whose upper case spells a status parses to that status |
| Verification.EveryStatusParses | backend/src/main/java/com/legymernok/backend/web/mission/MissionVerificationController.java:38 | each of the five statuses is recognised by its name and by its name in lower case |
| Verification.LongSParses | backend/src/main/java/com/legymernok/backend/web/mission/MissionVerificationController.java:38 | the long s upper-cases to 'S', so a status spelt with it is recognised |
| Verification.UnknownStatusRefused | backend/src/main/java/com/legymernok/backend/web/mission/MissionVerificationController.java:42-45 | an unknown word is refused |
| Verification.Decide | backend/src/main/java/com/legymernok/backend/web/mission/MissionVerificationController.java:32-45 | 401 exactly for a wrong secret; 400 exactly for the right secret with an unknown status; otherwise the parsed status is applied |
| Verification.HandleCallback | backend/src/main/java/com/legymernok/backend/web/mission/MissionVerificationController.java:32-45 | a rejection changes nothing; an applied status on an unknown mission is a 404 with nothing changed; otherwise that mission takes the status and the answer is 204, and a status equal to the current one changes nothing, update time included |
| Verification.AnyStatusFromAnyState | backend/src/main/java/com/legymernok/backend/web/mission/MissionVerificationController.java:38-41 | with the right secret every status is applied, in upper or lower case, whatever the current state |
| StarSystemService.SystemToResponse | backend/src/main/java/com/legymernok/backend/service/starsystem/StarSystemService.java:142-151 | the response carries the system's id, name, description and icon |
| StarSystemService.CreateSystemSpec | backend/src/main/java/com/legymernok/backend/service/starsystem/StarSystemService.java:37-55 | createStarSystem: unknown caller NotFound, taken name Conflict, otherwise the system saved, owned by the caller |
| StarSystemService.CreateStarSystem | backend/src/main/java/com/legymernok/backend/service/starsystem/StarSystemService.java:37-55 | the system table and the result are exactly those of the create specification |
| StarSystemService.CreateSystemCorrect | backend/src/main/java/com/legymernok/backend/service/starsystem/StarSystemService.java:38-52 | a create succeeds exactly when the caller is known and the name is free; it adds one system, named as asked and owned by the caller, and names stay unique; a refused create saves nothing |
| StarSystemService.DeleteSystemSpec | backend/src/main/java/com/legymernok/backend/service/starsystem/StarSystemService.java:72-87 | deleteStarSystem: caller, system, gate, then the delete, which the database refuses while a mission belongs to the system |
| StarSystemService.DeleteStarSystem | backend/src/main/java/com/legymernok/backend/service/starsystem/StarSystemService.java:72-87 | the system table and the result are exactly those of the delete specification |
| StarSystemService.DeleteSystemGate | backend/src/main/java/com/legymernok/backend/service/starsystem/StarSystemService.java:74-86 | a delete succeeds exactly for the owner or a holder of starsystem:delete_any of a system no mission belongs to, and removes only that system; a permitted delete of a system with missions is DataIntegrity (500) and changes nothing; an ownerless system fails with a 500 |
| StarSystemService.DeleteSystemLeavesNoOrphans | backend/src/main/java/com/legymernok/backend/service/starsystem/StarSystemService.java:72-87 | when every mission points at a stored system, it still does after the delete, whatever its outcome |
| StarSystemService.EditedSystem | backend/src/main/java/com/legymernok/backend/service/starsystem/StarSystemService.java:104-107 | an edit keeps the owner and the creation time |
| StarSystemService.UpdateSystemSpec | backend/src/main/java/com/legymernok/backend/service/starsystem/StarSystemService.java:90-111 | updateStarSystem: caller, system, gate, then the name check when the name changes, then the edit |
| StarSystemService.UpdateStarSystem | backend/src/main/java/com/legymernok/backend/service/starsystem/StarSystemService.java:90-111 | the system table and the result are exactly those of the update specification |
| StarSystemService.UpdateSystemCorrect | backend/src/main/java/com/legymernok/backend/service/starsystem/StarSystemService.java:92-109 | names stay unique and the set of systems is kept; a success overwrites the name and update time of that one system, keeps its owner and creation time and leaves every other system alone; keeping the name is never a conflict |
| StarSystemService.UpdateSystemGateFirst | backend/src/main/java/com/legymernok/backend/service/starsystem/StarSystemService.java:95-102 | a caller refused by the gate is refused whether or not the new name is taken |
| StarSystemService.SystemsByCurrentUser | backend/src/main/java/com/legymernok/backend/service/starsystem/StarSystemService.java:113-118 | NotFound exactly for an unknown caller; otherwise exactly the responses of the systems the caller owns |
| StarSystemService.StarSystemWithMissions | backend/src/main/java/com/legymernok/backend/service/starsystem/StarSystemService.java:121-139 | NotFound exactly for an unknown system, before any mission lookup; otherwise the system's own response |
| StarSystemService.StarSystemWithMissionsListsRanked | backend/src/main/java/com/legymernok/backend/service/starsystem/StarSystemService.java:123-127 | the missions of the answer are exactly the system's missions, in ascending rank |
| RoleService.FetchPermissionsByIds | backend/src/main/java/com/legymernok/backend/service/role/RoleService.java:113-118 | the requested ids that exist; nothing for a missing or empty request; unknown ids are dropped |
| RoleService.CreateRoleSpec | backend/src/main/java/com/legymernok/backend/service/role/RoleService.java:32-49 | createRole: a taken name is Conflict; otherwise the role saved with the existing requested permissions |
| RoleService.CreateRole | backend/src/main/java/com/legymernok/backend/service/role/RoleService.java:32-49 | the role table and the result are exactly those of the create specification |
| RoleService.CreateRoleCorrect | backend/src/main/java/com/legymernok/backend/service/role/RoleService.java:34-47 | Conflict exactly for a taken name, with nothing saved; otherwise one role is added with the requested name, description and existing permissions, and names stay unique |
| RoleService.UpdateRoleSpec | backend/src/main/java/com/legymernok/backend/service/role/RoleService.java:66-85 | updateRole: unknown role NotFound, a changed name that is taken Conflict, otherwise name, description and permissions replaced |
| RoleService.UpdateRole | backend/src/main/java/com/legymernok/backend/service/role/RoleService.java:66-85 | the role table and the result are exactly those of the update specification |
| RoleService.UpdateRoleCorrect | backend/src/main/java/com/legymernok/backend/service/role/RoleService.java:67-81 | names stay unique and a refusal changes nothing; a success renames the role and replaces its permission set wholesale, leaving other roles alone; keeping the name is never a conflict |
| RoleService.WithoutRole | backend/src/main/java/com/legymernok/backend/service/role/RoleService.java:98 | the cadet's roles lose exactly the deleted one |
| RoleService.DeleteRole | backend/src/main/java/com/legymernok/backend/service/role/RoleService.java:88-104 | NotFound exactly for an unknown role, with nothing changed; otherwise the role is stripped from every cadet holding it, one cadet at a time, and then deleted |
| RoleService.StripRoleLeavesNoReference | backend/src/main/java/com/legymernok/backend/service/role/RoleService.java:94-100 | afterwards no cadet refers to the role; every other membership and every other field is as it was; no cadet is added or removed |
| RoleService.DeleteRoleAuthorities | backend/src/main/java/com/legymernok/backend/service/role/RoleService.java:94-103 | each cadet's authorities after the delete are those computed over the old tables without the role |
| CadetService.RoleByName | backend/src/main/java/com/legymernok/backend/service/cadet/CadetService.java:52-53 | the role with that name, none exactly when no role has it |
| CadetService.FindRoleByName | backend/src/main/java/com/legymernok/backend/service/cadet/CadetService.java:52-53 | the repository lookup returns that role |
| CadetService.IsWhitespace | backend/src/main/java/com/legymernok/backend/service/cadet/CadetService.java:117 | Character.isWhitespace: the ASCII blanks, the separators U+001C to U+001F and the Unicode space separators other than the no-break spaces |
| CadetService.EmailInUse | backend/src/main/java/com/legymernok/backend/service/cadet/CadetService.java:42-44 | a present email some stored cadet holds; an absent email is never taken |
| CadetService.UsernameInUse | backend/src/main/java/com/legymernok/backend/service/cadet/CadetService.java:39-41 | a present username some stored cadet holds; an absent username is never taken |
| CadetService.CreateCadetSpec | backend/src/main/java/com/legymernok/backend/service/cadet/CadetService.java:38-69 | createCadet: username then email conflict before any request, an absent username or email never taken; the Gitea user; then the role lookup, the password encoding and the not-null username and email columns, in that order |
| CadetService.NewCadet | backend/src/main/java/com/legymernok/backend/service/cadet/CadetService.java:55-67 | the saved cadet has exactly the requested role and the returned Gitea id |
| CadetService.CreateCadet | backend/src/main/java/com/legymernok/backend/service/cadet/CadetService.java:38-69 | the cadet table, the Gitea requests and the result are exactly those of the create specification, for any request, absent fields included |
| CadetService.CreateCadetCorrect | backend/src/main/java/com/legymernok/backend/service/cadet/CadetService.java:39-67 | a present username or email that is taken is a conflict, exactly, with no request sent; any failure saves nothing; the only request is the Gitea user, with the username, email and password as given, absent ones included; once it exists, an absent or unknown role is NotFound, then an absent password IllegalArgument, then an absent username or email DataIntegrity (500); a success adds one cadet with that one role, the encoded password and the returned Gitea id, keeping usernames and emails unique |
| CadetService.UsernameOnlyRequestConflicts | backend/src/main/java/com/legymernok/backend/service/cadet/CadetService.java:39-41 | a request naming only a taken username is refused with a conflict, sends nothing and changes nothing |
| CadetService.NullUsernameReachesGitea | backend/src/main/java/com/legymernok/backend/service/cadet/CadetService.java:39-67 | a request without a username is never a name conflict; unless its email is taken, the Gitea user is requested with a null username; the cadet is never saved |
| CadetService.DropProgressOf | backend/src/main/java/com/legymernok/backend/service/cadet/CadetService.java:96 | exactly the progress records of other cadets remain, unchanged |
| CadetService.DeleteCadetSpec | backend/src/main/java/com/legymernok/backend/service/cadet/CadetService.java:86-99 | deleteCadet: unknown id NotFound with nothing sent; otherwise the Gitea delete, then the progress records and the cadet, refused with DataIntegrity while the cadet owns a mission or a system |
| CadetService.DeleteCadet | backend/src/main/java/com/legymernok/backend/service/cadet/CadetService.java:86-99 | the cadet and progress tables, the Gitea requests and the result are exactly those of the delete specification |
| CadetService.DeleteCadetCorrect | backend/src/main/java/com/legymernok/backend/service/cadet/CadetService.java:87-98 | a delete succeeds exactly for a known cadet who owns no mission and no star system, whatever Gitea answers; the Gitea user of a known cadet is deleted in any case; an owner is refused with DataIntegrity (500) and both tables stay; an unknown id changes nothing and sends nothing; after a success no progress record refers to the cadet and every other record is kept |
| CadetService.FirstRoleName | backend/src/main/java/com/legymernok/backend/service/cadet/CadetService.java:125-128 | none exactly when the cadet holds no stored role; otherwise the name of a held role |
| CadetService.Smallest | backend/src/main/java/com/legymernok/backend/service/cadet/CadetService.java:125-128 | the role taken as first is the smallest held id |
| CadetService.UpdateCadetSpec | backend/src/main/java/com/legymernok/backend/service/cadet/CadetService.java:102-144 | updateCadet: an unknown id is UserNotFound; then field by field: the email when supplied and changed (taken is Conflict), the password hash when the password is non-blank, the role when a non-blank one differs from the first held role's name (unknown is NotFound), the full name always |
| CadetService.UpdateCadet | backend/src/main/java/com/legymernok/backend/service/cadet/CadetService.java:102-144 | the cadet table and the result are exactly those of the update specification |
| CadetService.UpdateCadetKeepsKeys | backend/src/main/java/com/legymernok/backend/service/cadet/CadetService.java:107-114 | usernames and emails stay unique, the set of cadets is kept, and a refused update changes nothing |
| CadetService.ReplaceKeepsKeysUnique | backend/src/main/java/com/legymernok/backend/service/cadet/CadetService.java:107-114 | a cadet replaced with the same username and an email no other cadet holds keeps the keys unique |
| CadetService.UpdateCadetFields | backend/src/main/java/com/legymernok/backend/service/cadet/CadetService.java:107-142 | a success changes only that cadet: the email when one is supplied, the password hash only for a non-blank password, the full name always (even to none), and the roles stay or become exactly the named role |
| CadetService.UpdateCadetEmailConflict | backend/src/main/java/com/legymernok/backend/service/cadet/CadetService.java:107-114 | a new email that another cadet holds is a conflict and changes nothing |
| DataInitializer.SeedNames | backend/src/main/java/com/legymernok/backend/config/DataInitializer.java:26-32 | there are seven seeds, each named in the seed set |
| DataInitializer.EnsurePermissionFacts | backend/src/main/java/com/legymernok/backend/config/DataInitializer.java:56-61 | the returned id names a permission of that name; every stored permission is kept; a present name adds nothing; otherwise exactly one permission with that name is added under the new id |
| DataInitializer.EnsurePermissionKeepsUnique | backend/src/main/java/com/legymernok/backend/config/DataInitializer.java:56-61 | find-or-create keeps permission names unique |
| DataInitializer.CreatePermissionIfNotFound | backend/src/main/java/com/legymernok/backend/config/DataInitializer.java:56-61 | the permission table and the returned id are exactly those of find-or-create |
| DataInitializer.EnsureRoleFacts | backend/src/main/java/com/legymernok/backend/config/DataInitializer.java:63-68 | an existing role is returned unchanged, whatever permissions the seed asks for; otherwise one role is added with the given permissions |
| DataInitializer.CreateRoleIfNotFound | backend/src/main/java/com/legymernok/backend/config/DataInitializer.java:63-68 | the role table and the returned id are exactly those of find-or-create |
| DataInitializer.SeedAllPermissions | backend/src/main/java/com/legymernok/backend/config/DataInitializer.java:26-32 | the seven find-or-create calls, in order |
| DataInitializer.Run | backend/src/main/java/com/legymernok/backend/config/DataInitializer.java:24-54 | the permission and role tables after the run are exactly the seeded ones |
| DataInitializer.SeedKeepsNamesUnique | backend/src/main/java/com/legymernok/backend/config/DataInitializer.java:26-32 | seeding keeps permission names unique |
| DataInitializer.SeedResolvesNames | backend/src/main/java/com/legymernok/backend/config/DataInitializer.java:26-32 | each seed resolves to a stored permission of that name |
| DataInitializer.SeedKeepsExisting | backend/src/main/java/com/legymernok/backend/config/DataInitializer.java:56-61 | every permission already stored is kept as it was |
| DataInitializer.SeedAddsOnlySeeds | backend/src/main/java/com/legymernok/backend/config/DataInitializer.java:56-61 | every added permission is one of the seeds' records |
| DataInitializer.SeedFindsPresent | backend/src/main/java/com/legymernok/backend/config/DataInitializer.java:56-61 | when every seed name is already stored, seeding changes nothing |
| DataInitializer.SeedRolesKeep | backend/src/main/java/com/legymernok/backend/config/DataInitializer.java:63-68 | roles already stored are kept |
| DataInitializer.SeedRolesCadet | backend/src/main/java/com/legymernok/backend/config/DataInitializer.java:37-40 | a newly created ROLE_CADET holds exactly the ids the first two seeds resolved to |
| DataInitializer.SeedRolesAdmin | backend/src/main/java/com/legymernok/backend/config/DataInitializer.java:43-51 | a newly created ROLE_ADMIN holds exactly the seven resolved ids |
| DataInitializer.SeedRolesNamed | backend/src/main/java/com/legymernok/backend/config/DataInitializer.java:37-51 | after the seed both role names are taken and role names stay unique |
| DataInitializer.SeedRolesPresent | backend/src/main/java/com/legymernok/backend/config/DataInitializer.java:63-68 | when both roles exist, seeding the roles changes nothing |
| DataInitializer.ResolvedNamesTaken | backend/src/main/java/com/legymernok/backend/config/DataInitializer.java:56-61 | every resolved seed name is stored |
| DataInitializer.SeedRolesGrant | backend/src/main/java/com/legymernok/backend/config/DataInitializer.java:37-51 | for any seven seeds, a created ROLE_CADET grants exactly the first two names and a created ROLE_ADMIN all seven; existing roles are kept |
| DataInitializer.SeededRoles | backend/src/main/java/com/legymernok/backend/config/DataInitializer.java:37-51 | ROLE_CADET is seeded with exactly mission:read and mission:start, ROLE_ADMIN with exactly the seven seeded names, and an existing role is left as it was |
| DataInitializer.CadetSeedNames | backend/src/main/java/com/legymernok/backend/config/DataInitializer.java:26-27 | the first two seeds are mission:read and mission:start |
| DataInitializer.SeedPermissionsIdempotent | backend/src/main/java/com/legymernok/backend/config/DataInitializer.java:24-32 | seeding the permissions a second time changes nothing |
| DataInitializer.SeedRolesIdempotent | backend/src/main/java/com/legymernok/backend/config/DataInitializer.java:37-51 | seeding the roles a second time changes nothing |
| DataInitializer.OnlySeedNamesAdded | backend/src/main/java/com/legymernok/backend/config/DataInitializer.java:26-32 | only seed names are ever added |
| DataInitializer.OverridesNotSeeded | backend/src/main/java/com/legymernok/backend/config/DataInitializer.java:26-32 | none of the *_any overrides, mission:edit, mission:delete, starsystem:edit or starsystem:delete is seeded |
| LogFilter.NoQuoteNoKey | backend/src/main/java/com/legymernok/backend/config/LogFilter.java:37-43 | the placeholders, which hold no double quote, cannot contain the password key |
| LogFilter.LoggedBody | backend/src/main/java/com/legymernok/backend/config/LogFilter.java:35-50 | the logged body: too large when oversized or multipart, then hidden when it holds the password key, then empty when empty, else verbatim |
| LogFilter.LoggedBodyCases | backend/src/main/java/com/legymernok/backend/config/LogFilter.java:35-50 | an oversized or multipart body is logged as too large; otherwise a body holding "password" is hidden, an empty one is logged as empty and any other is logged verbatim; the logged text never holds the key |
| LogFilter.LoggedBodyIdempotent | backend/src/main/java/com/legymernok/backend/config/LogFilter.java:35-50 | sanitising what was logged again changes nothing |
| LogFilter.CapturedBodyNeverTooLong | backend/src/main/java/com/legymernok/backend/config/LogFilter.java:24 | a body captured under the ten-byte limit never reaches the too-large case unless it is multipart |
| LogFilter.SanitizeBody | backend/src/main/java/com/legymernok/backend/config/LogFilter.java:35-43 | the reassigned body is the logged text, and it never holds the password key |
| LogService.TailIsSuffix | backend/src/main/java/com/legymernok/backend/service/admin/LogService.java:29-30 | with the 32-bit subtraction n - limit: IllegalArgument exactly when n - 2^31 < limit < 0; a limit at or below n - 2^31 overflows and gives every line; a limit of zero or more gives the last min(limit, n) lines, in file order |
| LogService.Wrap32 | backend/src/main/java/com/legymernok/backend/service/admin/LogService.java:29 | Java's 32-bit subtraction: the `int` congruent to the exact difference modulo 2^32, the difference itself when it fits |
| LogService.Tail | backend/src/main/java/com/legymernok/backend/service/admin/LogService.java:29-30 | subList(max(0, n - limit), n) with the subtraction wrapping in 32 bits, a start past the end throwing IllegalArgument |
| LogService.TailExtremes | backend/src/main/java/com/legymernok/backend/service/admin/LogService.java:29-30 | a limit of at least n gives every line, a limit of 0 gives none |
| LogService.LatestLogs | backend/src/main/java/com/legymernok/backend/service/admin/LogService.java:19-36 | getLatestLogs: a missing file one not-found line, a file that fails to open an error line, a failure while reading an escaping exception, a readable file its tail |
| LogService.LatestLogsCases | backend/src/main/java/com/legymernok/backend/service/admin/LogService.java:19-36 | a missing file gives one "not found" line and a file that fails to open one error line, whatever the limit; a failure while the lines are collected escapes the catch as UncheckedIO (500); a readable file with a limit of zero or more gives its last lines, at most limit of them |
| LogList.CapsRun | frontend/src/pages/admin/adminlogs/LogList.tsx:62 | the longest leading run of capital letters |
| LogList.ParseLine | frontend/src/pages/admin/adminlogs/LogList.tsx:34-96 | a line without a leading timestamp gives an UNKNOWN entry holding the whole line; otherwise the timestamp is the 23-character prefix; the level is UNKNOWN or a run of capitals |
| LogList.SplitLevel | frontend/src/pages/admin/adminlogs/LogList.tsx:58-69 | the level is UNKNOWN or a non-empty run of capitals |
| LogList.PaddedLevel | backend/src/main/java/com/legymernok/backend/config/LoggingConfig.java:27 | the level left-aligned in five characters, padded with spaces |
| LogList.Format | backend/src/main/java/com/legymernok/backend/config/LoggingConfig.java:27 | one event in the pattern of the streamed events: date, padded level, "--- [thread] logger : message", then the line end |
| LogList.ParseDated | frontend/src/pages/admin/adminlogs/LogList.tsx:55-88 | a dated line parses to its date, the level split from the trimmed rest, and the message after the separator |
| LogList.SeparatorAfter | frontend/src/pages/admin/adminlogs/LogList.tsx:76 | the first " : " is the one right after a prefix that holds no ':' at all |
| LogList.MessageAfter | frontend/src/pages/admin/adminlogs/LogList.tsx:76-88 | the message is the text after that separator |
| LogList.SplitPadded | frontend/src/pages/admin/adminlogs/LogList.tsx:62-69 | a padded level is read back as the level, with the rest after it |
| LogList.ParseFormatted | frontend/src/pages/admin/adminlogs/LogList.tsx:34-96 | an event in the streamed pattern parses back to its date, level and message, when the thread and logger hold no ':' at all and the message does not end in white space |
| LogList.ReverseIndex | frontend/src/pages/admin/adminlogs/LogList.tsx:114 | reversal puts the last element first |
| LogList.ParseAll | frontend/src/pages/admin/adminlogs/LogList.tsx:114 | each line is parsed in place |
| LogList.History | frontend/src/pages/admin/adminlogs/LogList.tsx:111-114 | the fetched lines parsed, then reversed |
| LogList.HistoryReversed | frontend/src/pages/admin/adminlogs/LogList.tsx:114 | the history holds every fetched line parsed, newest first |
| LogList.PushCapped | frontend/src/pages/admin/adminlogs/LogList.tsx:145 | the element prepended, the list cut to 500 |
| LogList.PushCappedNewestFirst | frontend/src/pages/admin/adminlogs/LogList.tsx:145 | prepending keeps at most 500 entries, the new one first, followed by the newest of the old ones |
| LogList.Received | frontend/src/pages/admin/adminlogs/LogList.tsx:141-147 | an empty message leaves the list; any other is parsed and pushed capped |
| LogList.ReceivedNewestFirst | frontend/src/pages/admin/adminlogs/LogList.tsx:141-147 | an empty message changes nothing; any other message is parsed and prepended, and the buffer keeps at most 500 entries, dropping the oldest |
| LogList.HistoryFits | frontend/src/pages/admin/adminlogs/LogList.tsx:111-114 | the fetched history comes back exactly when the file does not fail while it is read, and then holds at most 200 entries, fewer than the buffer's 500 |
| LogList.LevelColor | frontend/src/pages/admin/adminlogs/LogList.tsx:166-179 | ERROR gives error, WARN warning, INFO info, and everything else default |
| LogList.LogView.LoadHistory | frontend/src/pages/admin/adminlogs/LogList.tsx:106-121 | a successful fetch replaces the list with the history; a failed one leaves it alone |
| LogList.LogView.Receive | frontend/src/pages/admin/adminlogs/LogList.tsx:141-147 | the list becomes the received one, and never exceeds 500 entries |
| LogList.LogView.Clear | frontend/src/pages/admin/adminlogs/LogList.tsx:212 | the list is emptied |
| Changelog.SplitFrom | frontend/src/pages/changelog/ChangelogPage.tsx:63 | the split always gives at least one piece |
| Changelog.SplitJoins | frontend/src/pages/changelog/ChangelogPage.tsx:63 | the pieces joined with "## " give the text back |
| Changelog.PiecesHoldNoHeading | frontend/src/pages/changelog/ChangelogPage.tsx:63 | no piece holds a heading of the text |
| Changelog.ChunksInOrder | frontend/src/pages/changelog/ChangelogPage.tsx:63-65 | the file is the dropped preamble followed by each chunk behind its heading, in file order, and the preamble holds no heading |
| Changelog.Lines | frontend/src/pages/changelog/ChangelogPage.tsx:66 | splitting gives at least one line |
| Changelog.FindFrom | frontend/src/pages/changelog/ChangelogPage.tsx:71-72 | the index of the first line holding the marker, or -1 when none does |
| Changelog.FindLine | frontend/src/pages/changelog/ChangelogPage.tsx:71-72 | none exactly when no line holds the marker; otherwise the first line that does |
| Changelog.AfterMarker | frontend/src/pages/changelog/ChangelogPage.tsx:75 | split(marker)[1]: the text after the first marker up to the next one |
| Changelog.Field | frontend/src/pages/changelog/ChangelogPage.tsx:74-79 | the trimmed text after the marker on the first line holding it, else "Unknown" |
| Changelog.SegmentLength | frontend/src/pages/changelog/ChangelogPage.tsx:85-86 | the length of the first line, up to the first line terminator |
| Changelog.RemoveMarked | frontend/src/pages/changelog/ChangelogPage.tsx:85-86 | every line holding the marker removed with the "\n" after it; other lines kept |
| Changelog.RemoveMarkedClears | frontend/src/pages/changelog/ChangelogPage.tsx:85-86 | after the removal the marker appears nowhere |
| Changelog.MarkedLineDropped | frontend/src/pages/changelog/ChangelogPage.tsx:85-86 | a marked line is dropped, its "\n" with it |
| Changelog.KeptLine | frontend/src/pages/changelog/ChangelogPage.tsx:85-86 | an unmarked line is kept with its terminator |
| Changelog.RemoveMarkedKeepsClear | frontend/src/pages/changelog/ChangelogPage.tsx:85-86 | removing one marker's lines does not make another marker appear |
| Changelog.Content | frontend/src/pages/changelog/ChangelogPage.tsx:83-87 | the chunk without its first title occurrence and without the marker lines, trimmed |
| Changelog.ContentClean | frontend/src/pages/changelog/ChangelogPage.tsx:83-87 | the content holds neither marker and neither starts nor ends with white space |
| Changelog.IconFor | frontend/src/pages/changelog/ChangelogPage.tsx:44-59 | getIconForTitle: the lower-cased title matched against the keyword pairs in order, the log icon when none occurs |
| Changelog.IconIsFirstMatch | frontend/src/pages/changelog/ChangelogPage.tsx:44-59 | the icon is that of the first keyword group the lower-cased title matches, in the table's order |
| Changelog.LogIconIffNoKeyword | frontend/src/pages/changelog/ChangelogPage.tsx:44-59 | the log icon exactly when no keyword occurs |
| Changelog.NoMatchFrom | frontend/src/pages/changelog/ChangelogPage.tsx:46-58 | from any group on, the log icon comes out exactly when no later group matches |
| Changelog.StatusColor | frontend/src/pages/changelog/ChangelogPage.tsx:155-175 | green exactly when the status contains KÉSZ, Sikeres or 100%, amber otherwise |
| Changelog.ParseChangelog | frontend/src/pages/changelog/ChangelogPage.tsx:61-100 | one entry per chunk |
| Changelog.ParseEntry | frontend/src/pages/changelog/ChangelogPage.tsx:65-96 | one chunk as entry i: id "entry-i", trimmed first line as title, stardate and status fields, the title's icon and the content |
| Text.IsSpace | frontend/src/pages/changelog/ChangelogPage.tsx:87 | the white space of JavaScript's trim: the line terminators, the Unicode space separators and the byte-order mark |
| Text.IndexOf | frontend/src/pages/admin/adminlogs/LogList.tsx:76 | indexOf: -1 exactly when the text does not occur; otherwise the first position where it occurs |
| Text.Trim | frontend/src/pages/changelog/ChangelogPage.tsx:68 | String.prototype.trim: leading and then trailing white space removed |
| Changelog.EntriesInOrder | frontend/src/pages/changelog/ChangelogPage.tsx:65-96 | entry i is chunk i parsed (trimmed title, stardate and status after their markers or "Unknown", content without the title and marker lines) and its id is "entry-i"; no two ids are equal |
| RoleEdit.Without | frontend/src/pages/admin/roles/RoleEdit.tsx:87 | the id is gone and every other id occurs as often as before |
| RoleEdit.WithoutAbsent | frontend/src/pages/admin/roles/RoleEdit.tsx:87 | filtering out an id that is not there changes nothing |
| RoleEdit.Toggle | frontend/src/pages/admin/roles/RoleEdit.tsx:81-91 | name and description are unchanged |
| RoleEdit.ToggleFlips | frontend/src/pages/admin/roles/RoleEdit.tsx:83-88 | a click flips whether the id is checked, removing every copy of a checked one, and leaves every other id's occurrences as they were |
| RoleEdit.ToggleAppends | frontend/src/pages/admin/roles/RoleEdit.tsx:88 | an unchecked id is appended at the end |
| RoleEdit.ToggleTwiceRestores | frontend/src/pages/admin/roles/RoleEdit.tsx:81-91 | clicking an unchecked id twice gives the form back |
| RoleEdit.PermissionIds | frontend/src/pages/admin/roles/RoleEdit.tsx:69 | the ids of the permissions, in response order |
| RoleEdit.Load | frontend/src/pages/admin/roles/RoleEdit.tsx:66-70 | the loaded form has the role's name and description and its permissions' ids, in response order |

## Left out

- HTTP transport to Gitea is not modelled: request building, Basic authentication, Base64 and JSON. A reply is reduced to the one entry the caller reads. The remote answers each request in a fixed way: the same request always gets the same reply.
- The Spring wiring is left out: controllers, `@PreAuthorize` annotations, security configuration, JWT handling, AuthService and AuthContext. The principal is a `Caller` (a username and its token's authorities) passed in.
- WebSocket log streaming is left out. So is all of LoggingConfig except its pattern, which `LogList.Format` writes out.
- Fresh UUIDs, `Instant.now`, `Math.random` and the password encoder are parameters. The random entry ids of the log list are not modelled.
- Transactions: each service call is treated as atomic, so a call ending in an exception leaves every table as it was.
- Null references: an ownerless mission or star system reaching a gate fails with `NullReference`, which the handler turns into a 500. It is not excluded by a precondition. `mapToResponse` guards a null owner, and `MissionService.MapToResponse` then gives no owner.
- MissionRanks.ShiftedDown: `shiftOrdersDown`, which deleteMission calls, is not declared by the mission repository. It is modelled as an assumption: every mission of the system ranked above the deleted rank moves down by one.
- MissionService.UpdateWork: the rank test compares two `Integer` objects with `!=`, and the model compares their values. In the source, an unchanged rank outside -128..127 takes the "changed" path. For example, with rank 200 kept in the same system, the probe (MissionService.java:160-161) finds the mission itself, every mission of that system ranked 200 or more, the edited one included, moves up by one, and the save then writes 200 back, leaving a gap at 201.
- MissionService.CreateMissionFromForge: the builder does not apply the DRAFT field initialiser. The forge sets PENDING explicitly, and so does the model.
- `initializeForgeMission`, `saveForgeMissionContent` and `getMissionFiles` are called from tests and controllers but are absent from MissionService, so they are not modelled.
- CadetService.FirstRoleName: `findFirst` on a hash set is modelled as the smallest held role id. Java's iteration order is not specified.
- CadetService.UpdateCadet: the `updatedAt` stamp set by the persistence layer is not modelled. The same holds for the role tables.
- Verification.ToUpper: Java's `toUpperCase` is modelled for ASCII, the dotless i, the long s, sharp s and the ligatures U+FB00 to U+FB06. Every other character keeps its value. This decides the same accept-or-reject for the five constants. Locale-specific case mapping, such as the Turkish dotted i, is not modelled.
- Gitea.TemplateFor: `equalsIgnoreCase` is modelled against lower-case ASCII words, including the Kelvin sign folding to 'k'. No other Unicode folding is modelled.
- Changelog.IconIsFirstMatch: JavaScript `toLowerCase` is modelled only for the characters whose lower case holds a letter of the keywords: the ASCII and Latin-1 capitals, Ő, Ű, the Kelvin sign and the dotted capital I. Every other character keeps its value, which cannot create or destroy a keyword match. The changelog file itself is not part of this model.
- LogFilter.CapturedBodyNeverTooLong: the capture limit is ten bytes, but the model counts characters. A character is at least one byte, so the bound carries over.
- LogList.Format: the pattern is the one LoggingConfig gives the WebSocket appender. The pattern of logs/application.log is set outside LoggingConfig and is not part of this model, so the history lines parse as entries only if the file is written in the same pattern.
- LogList.Format: only the date, level, thread, logger and message conversions of the pattern are modelled. The `%logger{36}` abbreviation is treated as the given logger text.
- Rendering, animation, layouts, routing and i18n are left out. So are the legacy duplicate services and repositories, the DTOs, and the role editor's fetch and save handlers, which are I/O. React state setters are modelled as field assignment on `LogList.LogView`.
- Gitea.NodeCopiesFiles: stated for the corrected upload only. As written, a file whose probe answers 404 is not written; Gitea.NodeAsWrittenWritesNothing states that side.
- Gitea.EntriesCopyFiles: stated for the corrected upload only; Gitea.EntriesAsWrittenWritesNothing states the upload as written.
- Gitea.CopyCorrect: stated for the corrected copy only. As written, a copy into an empty target writes nothing; Gitea.CopyAsWrittenWritesNothing states that side.
- MissionService.UploadsWriteEveryFile: stated for the corrected upload only; MissionService.UploadsAsWrittenWriteNothing states the uploads as written.
- Gitea.Gateway: the upload mode is a constant of the gateway. `AsWritten` is the deployed behaviour; the source has no such switch.
- LogList.SeparatorAfter: proved for a prefix that holds no ':' at all. A prefix that holds ':' but no " : " is not covered: a logger ending in " :" moves the first " : " inside the prefix.
- LogList.ParseFormatted: proved for a thread and a logger that hold no ':' at all, and a message that does not end in white space. For other lines only the separate steps are proved.
- LogFilter.SanitizeBody: the rest of `doFilterInternal` is servlet plumbing and is not modelled: running the chain, copying the response body back, and rethrowing a failure.
- NoFileIn: the lemmas about the upload as written assume that every probe in the new repository answers 404. That is what a repository created with `auto_init` false (GiteaService.java:139) holds; the remote itself is not modelled.
- Java `int` overflow of ranks is not modelled: ranks are unbounded integers. The log limit is a Java `int`, and its subtraction wraps as in the source.
- LogService.LatestLogs: which exceptions Files.lines and collecting throw is an input (`OpenFailed` or `ReadFailed`), not derived from the file system.
- Role.java is not part of this model apart from its name and permission set, as read by the services.

## Findings

| source | as written | input that shows it | evidently intended | confidence | as-written member | corrected member |
|---|---|---|---|---|---|---|
| backend/src/main/java/com/legymernok/backend/integration/GiteaService.java:263-302 | `getFileInfo` turns a 404 into null, and `uploadFile` then neither updates nor creates the file; it sends nothing more and returns null | uploading a file that does not exist yet: the probe for its path answers 404 | the create branch behind the 404 handler runs, so a missing file is created | not executed | Gitea.UploadAsWrittenSkipsMissingFile | Gitea.UploadWritesContent |
| backend/src/main/java/com/legymernok/backend/integration/GiteaService.java:205-242 | `copyRepositoryContents` uploads every template file with that `uploadFile` into the repository it has just created empty | any template with a readable file, copied into a new mission repository or a cadet's working copy | the template's files are written into the new repository | not executed | Gitea.CopyAsWrittenWritesNothing | Gitea.CopyCorrect |
