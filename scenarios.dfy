/**
 * Request sequences as methods whose contracts chain the handlers'
 * contracts: the club's end-to-end flows, the answers to repeated requests,
 * what the second generation's add-player route does with a player who is
 * already listed, and what a match update does once its away team is gone.
 */
module Scenarios {
  import opened Common
  import LegacyStore
  import LegacyAuth
  import LegacyTeams
  import ApiStore
  import ApiAuth
  import ApiTeams
  import ApiFields
  import ApiMatches

  /**
   * Register coach A, A creates team T, register B, A adds B as a player,
   * A adds B again, and B tries to add a spare player to T.
   */
  method CoachAddsPlayer(db: LegacyStore.Db, emailA: string, emailB: string)
    returns (statuses: seq<Status>, a: UserId, b: UserId, t: LegacyStore.TeamId)
    requires db.Valid()
    requires emailA != "" && emailB != "" && emailA != emailB
    requires !EmailTaken(db.users, emailA) && !EmailTaken(db.users, emailB)
    modifies db
    ensures db.Valid()
    ensures statuses == [Created, Created, Created, Ok, Conflict, Forbidden]
    ensures t in db.teams && db.teams[t].coach == a && db.teams[t].players == [b] && db.teams[t].sparePlayers == []
  {
    var s1, s2, s3, s4, s5, s6;
    s1, a := LegacyAuth.Register(db, emailA, "A", "secret");
    s2, t := LegacyTeams.Create(db, a, "T", "Utrecht", "men", "first team");
    StoreUserTakesEmail(old(db.users), a, User(emailA, "A", "secret"), emailB);
    s3, b := LegacyAuth.Register(db, emailB, "B", "secret");
    s4 := LegacyTeams.AddPlayer(db, a, t, Some(b));
    s5 := LegacyTeams.AddPlayer(db, a, t, Some(b));
    s6 := LegacyTeams.AddSparePlayer(db, b, t, Some(a));
    statuses := [s1, s2, s3, s4, s5, s6];
  }

  /** Registering the same email twice creates one account and then answers 409. */
  method RegisterTwice(db: LegacyStore.Db, email: string)
    returns (first: Status, second: Status)
    requires db.Valid() && email != "" && !EmailTaken(db.users, email)
    modifies db
    ensures db.Valid()
    ensures first == Created && second == Conflict
    ensures |db.users| == |old(db.users)| + 1
  {
    var id;
    first, id := LegacyAuth.Register(db, email, "N", "pw");
    StoreUserTakesEmail(old(db.users), id, User(email, "N", "pw"), email);
    var again;
    second, again := LegacyAuth.Register(db, email, "N", "pw");
  }

  /**
   * A creates field F, adds "floodlights", adds it again, removes it, and
   * removes it again.
   */
  method FacilityRoundTrip(db: ApiStore.Db, a: UserId)
    returns (statuses: seq<Status>, f: ApiStore.FieldId)
    requires db.Valid() && a in db.users
    modifies db
    ensures db.Valid()
    ensures statuses == [Created, Ok, Conflict, Ok, Ok]
    ensures f in db.fields && db.fields[f].owner == a && db.fields[f].facilities == []
  {
    var s1, s2, s3, s4, s5;
    s1, f := ApiFields.Create(db, a, "F", Some(Location("Dorpsstraat", "1", "1234AB")), 100, 60, "grass", true);
    s2 := ApiFields.AddFacility(db, a, f, "floodlights", true);
    s3 := ApiFields.AddFacility(db, a, f, "floodlights", true);
    s4 := ApiFields.RemoveFacility(db, a, f, "floodlights", true);
    s5 := ApiFields.RemoveFacility(db, a, f, "floodlights", true);
    statuses := [s1, s2, s3, s4, s5];
  }

  /**
   * A coach adds the same user three times through the second generation's
   * route as written: every request answers 200 and the user ends up listed
   * three times.
   */
  method DuplicatePlayerAppended(db: ApiStore.Db, coach: UserId, b: UserId, t: ApiStore.TeamId)
    returns (statuses: seq<Status>)
    requires db.Valid()
    requires coach in db.users && b in db.users
    requires t in db.teams && db.teams[t].coach == coach && db.teams[t].players == []
    modifies db
    ensures db.Valid()
    ensures statuses == [Ok, Ok, Ok]
    ensures t in db.teams && db.teams[t].players == [b, b, b]
    ensures !NoDuplicates(db.teams[t].players)
  {
    var s1 := ApiTeams.AddPlayer(db, coach, t, b, true);
    var s2 := ApiTeams.AddPlayer(db, coach, t, b, true);
    var s3 := ApiTeams.AddPlayer(db, coach, t, b, true);
    statuses := [s1, s2, s3];
    assert db.teams[t].players[0] == db.teams[t].players[1];
  }

  /**
   * The same requests with the intended duplicate check: the first adds the
   * user, the others answer 409 and leave the list as it was.
   */
  method DuplicatePlayerRefused(db: ApiStore.Db, coach: UserId, b: UserId, t: ApiStore.TeamId)
    returns (statuses: seq<Status>)
    requires db.Valid()
    requires coach in db.users && b in db.users
    requires t in db.teams && db.teams[t].coach == coach && db.teams[t].players == []
    modifies db
    ensures db.Valid()
    ensures statuses == [Ok, Conflict, Conflict]
    ensures t in db.teams && db.teams[t].players == [b]
  {
    var s1 := ApiTeams.AddPlayerChecked(db, coach, t, b, true);
    var s2 := ApiTeams.AddPlayerChecked(db, coach, t, b, true);
    var s3 := ApiTeams.AddPlayerChecked(db, coach, t, b, true);
    statuses := [s1, s2, s3];
  }

  /**
   * The coach of team T schedules a match that ends before it starts and has
   * T on both sides: it is accepted, with T as the home team.
   */
  method ScheduleUnordered(db: ApiStore.Db, coach: UserId, t: ApiStore.TeamId, f: ApiStore.FieldId)
    returns (status: Status, m: ApiStore.MatchId)
    requires db.Valid()
    requires coach in db.users && t in db.teams && db.teams[t].coach == coach
    modifies db
    ensures db.Valid()
    ensures status == Created
    ensures m in db.matches && db.matches[m] == ApiStore.Match(t, Some(t), Some(f), 12, 10)
  {
    status, m := ApiMatches.Create(db, coach, t, f, 12, 10, true);
  }

  /** A second team for the same coach is refused with 409. */
  method SecondTeamRefused(db: ApiStore.Db, coach: UserId, t: ApiStore.TeamId)
    returns (status: Status)
    requires db.Valid()
    requires coach in db.users && t in db.teams && db.teams[t].coach == coach
    modifies db
    ensures status == Conflict && unchanged(db)
  {
    var id;
    status, id := ApiTeams.Create(db, coach, "Second", "Delft", "mixed", "reserves");
  }

  /**
   * The away team of a match is deleted by its own coach; the home coach then
   * updates the match without naming an away team, and the match is stored
   * with a null away team.
   */
  method AwayTeamNulled(db: ApiStore.Db, home: UserId, away: UserId, t1: ApiStore.TeamId, t2: ApiStore.TeamId, m: ApiStore.MatchId)
    returns (statuses: seq<Status>)
    requires db.Valid()
    requires home in db.users && away in db.users
    requires t1 in db.teams && db.teams[t1].coach == home
    requires t2 in db.teams && db.teams[t2].coach == away && t1 != t2
    requires m in db.matches && db.matches[m].homeTeam == t1 && db.matches[m].awayTeam == Some(t2)
    modifies db
    ensures db.Valid()
    ensures statuses == [Ok, Ok]
    ensures m in db.matches && db.matches[m].homeTeam == t1 && db.matches[m].awayTeam == None
  {
    var s1 := ApiTeams.Delete(db, away, t2, true);
    var s2 := ApiMatches.Update(db, home, m, None, None, None, None, true);
    statuses := [s1, s2];
  }
}
