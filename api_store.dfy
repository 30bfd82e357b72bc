/**
 * The database as the second generation of controllers (the controllers directly under src/api)
 * sees it, through the services of src/services over the schemas of src/models:
 * teams with one member list, fields with a single owner, and matches.
 */
module ApiStore {
  import opened Common

  type TeamId = nat
  type FieldId = nat
  type MatchId = nat

  /** The gender categories a team may have. */
  const Genders: set<string> := {"men", "women", "mixed"}

  /** A team document; this schema has no spare-player list. */
  datatype Team = Team(
    name: string,
    city: string,
    coach: UserId,
    players: seq<UserId>,
    gender: string,
    description: string)

  /** A field document, changed and deleted only by its owner. */
  datatype Field = Field(
    name: string,
    owner: UserId,
    location: Location,
    facilities: seq<string>,
    length: int,
    width: int,
    description: string)

  /**
   * A match document. Times are kept as opaque instants. The schema has no
   * organizer path, so the organizer given at creation is not stored. The
   * away team and the field may be null: an update writes back the populated
   * reference, which is null once that team or field has been deleted.
   */
  datatype Match = Match(
    homeTeam: TeamId,
    awayTeam: Option<TeamId>,
    field: Option<FieldId>,
    startDateTime: int,
    endDateTime: int)

  class Db {
    var users: map<UserId, User>
    var teams: map<TeamId, Team>
    var fields: map<FieldId, Field>
    var matches: map<MatchId, Match>
    /** Every identity handed out so far is below `nextId`. */
    var nextId: nat

    ghost predicate Valid()
      reads this
    {
      && EmailsUnique(users)
      && (forall t, t' | t in teams && t' in teams && t != t' :: teams[t].coach != teams[t'].coach)
      && (forall f | f in fields :: NoDuplicates(fields[f].facilities))
      && (forall u | u in users :: u < nextId)
      && (forall t | t in teams :: t < nextId)
      && (forall f | f in fields :: f < nextId)
      && (forall m | m in matches :: m < nextId)
    }

    constructor ()
      ensures Valid()
      ensures users == map[] && teams == map[] && fields == map[] && matches == map[]
    {
      users, teams, fields, matches, nextId := map[], map[], map[], map[], 0;
    }

    /** The team service's `exists(user)`: some team has this user as its coach. */
    predicate CoachesTeam(u: UserId)
      reads this
    {
      exists t | t in teams :: teams[t].coach == u
    }

    /**
     * The team service's `getByCoach(user)`: the team this user coaches, if any.
     * With one team per coach the answer is the only such team.
     */
    method TeamOfCoach(u: UserId) returns (team: Option<TeamId>)
      requires Valid()
      ensures team.None? <==> !CoachesTeam(u)
      ensures team.Some? ==> team.value in teams && teams[team.value].coach == u
      ensures team.Some? ==> forall t | t in teams && teams[t].coach == u :: t == team.value
    {
      if CoachesTeam(u) {
        var t :| t in teams && teams[t].coach == u;
        team := Some(t);
      } else {
        team := None;
      }
    }

    /** The database assigns each new document an identity no other document has. */
    method NewId() returns (id: nat)
      requires Valid()
      modifies this`nextId
      ensures Valid()
      ensures id == old(nextId) && nextId == id + 1
      ensures id !in users && id !in teams && id !in fields && id !in matches
    {
      id := nextId;
      nextId := nextId + 1;
    }
  }
}
