/** The persistence layer: one table per entity, each a map from id to
    record, held by a `Db` object whose methods are the repository
    operations the services call. Every service call is treated as one
    transaction: a call that ends in an exception leaves the tables as they
    were. */
module Store {
  import opened Errors
  import opened Authority
  import opened Entities
  import opened MissionRanks
  import opened Text

  /** The text form of an id (a UUID's toString), as decimal digits;
      distinct ids have distinct texts (Text.DecimalInjective). */
  function IdText(id: Id): string
  {
    Decimal(id)
  }

  /** The unique columns of the cadet table: username and email. */
  predicate KeysUnique(cadets: map<Id, Cadet>)
  {
    forall a, b :: a in cadets && b in cadets && a != b ==>
      cadets[a].username != cadets[b].username && cadets[a].email != cadets[b].email
  }

  /** The cadet a username names, if any (findByUsername). */
  ghost function UserByName(cadets: map<Id, Cadet>, username: string): (r: Option<Id>)
    requires KeysUnique(cadets)
    ensures r.None? <==> forall id :: id in cadets ==> cadets[id].username != username
    ensures r.Some? ==> r.value in cadets && cadets[r.value].username == username
    ensures r.Some? ==> forall id :: id in cadets && cadets[id].username == username ==> id == r.value
  {
    if exists id :: id in cadets && cadets[id].username == username then
      var id :| id in cadets && cadets[id].username == username; Some(id)
    else None
  }

  /** The foreign keys the services delete against: a mission's
      star_system_id, a progress record's mission_id and cadet_id, and the
      owner_id of missions and star systems. None cascades, so the database
      refuses to delete a row that one of them still points at. */
  predicate SystemHasMissions(missions: map<Id, Mission>, s: Id)
  {
    exists m :: m in missions && missions[m].starSystem == s
  }

  predicate MissionHasProgress(progress: Progress, id: Id)
  {
    exists k :: k in progress && k.1 == id
  }

  predicate OwnsAny(missions: map<Id, Mission>, systems: map<Id, StarSystem>, c: Id)
  {
    (exists m :: m in missions && missions[m].owner == Some(c)) ||
    (exists s :: s in systems && systems[s].owner == Some(c))
  }

  /** What a call that talks only to the database did: the table it leaves
      behind and what it returned. */
  datatype Outcome<S, T> = Outcome(state: S, result: Result<T>)

  /** The progress table, keyed by (cadet id, mission id): at most one
      record per pair. */
  type Progress = map<(Id, Id), CadetMission>

  class Db {
    var starSystems: map<Id, StarSystem>
    var missions: map<Id, Mission>
    var cadets: map<Id, Cadet>
    var roles: map<Id, Role>
    var permissions: map<Id, Permission>
    var progress: Progress

    constructor ()
      ensures starSystems == map[] && missions == map[] && cadets == map[]
      ensures roles == map[] && permissions == map[] && progress == map[]
    {
      starSystems, missions, cadets := map[], map[], map[];
      roles, permissions, progress := map[], map[], map[];
    }

    predicate UsernameTaken(username: string)
      reads this
    {
      exists id :: id in cadets && cadets[id].username == username
    }

    predicate EmailTaken(email: string)
      reads this
    {
      exists id :: id in cadets && cadets[id].email == email
    }

    /** findByUsername. */
    method FindByUsername(username: string) returns (r: Option<Id>)
      requires KeysUnique(cadets)
      ensures r == UserByName(cadets, username)
    {
      if UsernameTaken(username) {
        var id :| id in cadets && cadets[id].username == username;
        r := Some(id);
      } else {
        r := None;
      }
    }

    /** getAuthorities of a stored cadet, over the current role and permission tables. */
    method AuthoritiesOf(id: Id) returns (a: set<string>)
      requires id in cadets
      ensures a == Authorities(cadets[id].roles, roles, permissions)
    {
      a := GetAuthorities(cadets[id].roles, roles, permissions);
    }

    /** shiftOrdersUp, a bulk update of the mission table. */
    method ShiftOrdersUp(s: Id, k: int)
      modifies this`missions
      ensures missions == ShiftedUp(old(missions), s, k)
    {
      missions := ShiftedUp(missions, s, k);
    }

    /** shiftOrdersDown, the assumed counterpart of shiftOrdersUp. */
    method ShiftOrdersDown(s: Id, d: int)
      modifies this`missions
      ensures missions == ShiftedDown(old(missions), s, d)
    {
      missions := ShiftedDown(missions, s, d);
    }
  }
}
