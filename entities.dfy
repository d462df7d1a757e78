/** The persistent records of the mission platform: missions and their
    verification status, star systems, and a cadet's progress on a mission.
    Each record is a value; a store table is a map from id to record, and a
    setter on an entity becomes the replacement of its map entry. */
module Entities {
  import opened Errors
  import opened Authority

  /** The five verification states of a mission's template repository. */
  datatype VerificationStatus =
    | Pending        // waiting for, or running, the tests
    | Success        // the tests passed
    | Failed         // the tests failed
    | ReviewNeeded   // an administrator has to look at it
    | Draft          // still being edited, never verified by CI

  /** The constant's name as it is stored and as the callback spells it. */
  function StatusName(v: VerificationStatus): string
  {
    match v
    case Pending => "PENDING"
    case Success => "SUCCESS"
    case Failed => "FAILED"
    case ReviewNeeded => "REVIEW_NEEDED"
    case Draft => "DRAFT"
  }

  /** The enum's constants in declaration order. */
  const AllStatuses: seq<VerificationStatus> := [Pending, Success, Failed, ReviewNeeded, Draft]

  /** The enum has exactly five constants, each listed once, and their names
      tell them apart. */
  lemma StatusesExhaustive(v: VerificationStatus, w: VerificationStatus)
    ensures v in AllStatuses && |AllStatuses| == 5
    ensures forall i, j :: 0 <= i < j < |AllStatuses| ==> AllStatuses[i] != AllStatuses[j]
    ensures StatusName(v) == StatusName(w) <==> v == w
  {
  }

  /** Progress of a cadet on a mission; only IN_PROGRESS is ever written. */
  datatype MissionStatus = InProgress

  /** A mission. `starSystem` is the non-null owning system, `owner` the
      nullable author. Mission type and difficulty are stored by name. */
  datatype Mission = Mission(
    starSystem: Id,
    name: string,
    descriptionMarkdown: Option<string>,
    templateRepositoryUrl: string,
    missionType: string,
    difficulty: string,
    orderInSystem: int,
    owner: Option<Id>,
    verificationStatus: VerificationStatus,
    createdAt: Instant,
    updatedAt: Instant)

  /** The field initialiser of a mission's status. The builder that every
      service uses does not apply it, so each creation names a status. */
  const DefaultVerificationStatus: VerificationStatus := Draft

  /** A star system: a uniquely named group of ranked missions. */
  datatype StarSystem = StarSystem(
    name: string,
    description: Option<string>,
    iconUrl: Option<string>,
    owner: Option<Id>,
    createdAt: Instant,
    updatedAt: Instant)

  /** A cadet's progress record on one mission. The progress table is keyed
      by the (cadet, mission) pair, which is how the table's uniqueness
      constraint on that pair appears here. */
  datatype CadetMission = CadetMission(
    status: MissionStatus,
    repositoryUrl: Option<string>,
    startedAt: Option<Instant>,
    completedAt: Option<Instant>)

  /** The record startMission saves: in progress, the cadet's own repository,
      started now and not completed. */
  function StartedRecord(url: string, now: Instant): (cm: CadetMission)
    ensures cm.status == InProgress && cm.repositoryUrl == Some(url)
    ensures cm.startedAt == Some(now) && cm.completedAt.None?
  {
    CadetMission(InProgress, Some(url), Some(now), None)
  }
}
