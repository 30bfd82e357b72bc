/**
 * The database as the first generation of controllers (src/api/controllers)
 * sees it: the user, football team and football field collections of
 * src/api/schemas. Teams carry two member lists, fields a list of contacts.
 */
module LegacyStore {
  import opened Common

  type TeamId = nat
  type FieldId = nat

  /** A football team document; `coach`, `players` and `sparePlayers` hold user references. */
  datatype Team = Team(
    name: string,
    city: string,
    coach: UserId,
    players: seq<UserId>,
    sparePlayers: seq<UserId>,
    gender: string,
    description: string)

  /** A football field document; its contacts are the users allowed to change it. */
  datatype Field = Field(
    name: string,
    contacts: seq<UserId>,
    location: Location,
    facilities: seq<string>,
    length: int,
    width: int,
    description: string)

  /** The coach is in neither member list and neither list repeats a user. */
  predicate TeamOk(t: Team) {
    && t.coach !in t.players
    && t.coach !in t.sparePlayers
    && NoDuplicates(t.players)
    && NoDuplicates(t.sparePlayers)
  }

  /** A field always has a contact (its creator first), and no contact or facility is listed twice. */
  predicate FieldOk(f: Field) {
    && |f.contacts| > 0
    && NoDuplicates(f.contacts)
    && NoDuplicates(f.facilities)
  }

  class Db {
    var users: map<UserId, User>
    var teams: map<TeamId, Team>
    var fields: map<FieldId, Field>
    /** Every identity handed out so far is below `nextId`. */
    var nextId: nat

    ghost predicate Valid()
      reads this
    {
      && EmailsUnique(users)
      && (forall t | t in teams :: TeamOk(teams[t]))
      && (forall f | f in fields :: FieldOk(fields[f]))
      && (forall u | u in users :: u < nextId)
      && (forall t | t in teams :: t < nextId)
      && (forall f | f in fields :: f < nextId)
    }

    constructor ()
      ensures Valid()
      ensures users == map[] && teams == map[] && fields == map[]
    {
      users, teams, fields, nextId := map[], map[], map[], 0;
    }

    /** The database assigns each new document an identity no other document has. */
    method NewId() returns (id: nat)
      requires Valid()
      modifies this`nextId
      ensures Valid()
      ensures id == old(nextId) && nextId == id + 1
      ensures id !in users && id !in teams && id !in fields
    {
      id := nextId;
      nextId := nextId + 1;
    }
  }
}
