/**
 * The second generation's team routes (src/api/team.controller.ts). A user
 * coaches at most one team. Adding a player looks for a duplicate with a
 * per-element callback over the unpopulated player list, which never finds
 * one, so the player is appended even when already listed; there is no
 * check that keeps the coach out.
 */
module ApiTeams {
  import opened Common
  import opened ApiStore

  /**
   * The `email` property of each entry of the team's player list, as the
   * `forEach` callback reads it. The team is read with a plain `findById`
   * that does not populate its players, so every entry is a bare object id,
   * which has no `email` property: the callback reads `undefined`, here `None`.
   */
  function EmailsAsRead(players: seq<UserId>): (seen: seq<Option<string>>)
  {
    seq(|players|, i => None)
  }

  /** How many of the values the callback reads are strictly equal to `email`. */
  function Matches(seen: seq<Option<string>>, email: string): (n: nat)
    ensures n <= |seen|
    ensures n == 0 <==> Some(email) !in seen
  {
    if seen == [] then 0
    else
      var init := seen[..|seen| - 1];
      assert forall v | v in seen :: v in init || v == seen[|seen| - 1];
      Matches(init, email) + (if seen[|seen| - 1] == Some(email) then 1 else 0)
  }

  /** Counting over a prefix never finds more than counting over the whole list. */
  lemma {:induction false} MatchesPrefix(seen: seq<Option<string>>, i: nat, email: string)
    requires i <= |seen|
    ensures Matches(seen[..i], email) <= Matches(seen, email)
    decreases |seen| - i
  {
    if i < |seen| {
      MatchesPrefix(seen, i + 1, email);
      assert seen[..i + 1][..i] == seen[..i];
    } else {
      assert seen[..i] == seen;
    }
  }

  /**
   * With the players unpopulated, the duplicate scan finds nothing, whatever
   * the list holds and whoever the candidate is.
   */
  lemma NoEntryMatches(players: seq<UserId>, email: string)
    ensures Matches(EmailsAsRead(players), email) == 0
  {
    var seen := EmailsAsRead(players);
    assert forall i | 0 <= i < |seen| :: seen[i] != Some(email);
  }

  /**
   * The `forEach` over the values the callback reads: every value equal to
   * the candidate's email answers 409. The first answer reaches the client;
   * the second one throws, because the response has already been sent, and
   * that ends the loop. The result is the number of answers attempted.
   */
  method DuplicateReplies(seen: seq<Option<string>>, email: string) returns (replies: nat)
    ensures replies == if Matches(seen, email) < 2 then Matches(seen, email) else 2
  {
    replies := 0;
    var i := 0;
    while i < |seen| && replies < 2
      invariant 0 <= i <= |seen|
      invariant replies == Matches(seen[..i], email)
    {
      assert seen[..i + 1][..i] == seen[..i];
      if seen[i] == Some(email) {
        replies := replies + 1;
      }
      i := i + 1;
    }
    MatchesPrefix(seen, i, email);
    if i == |seen| {
      assert seen[..i] == seen;
    }
  }

  /** The merged record of PUT /teams/:id: a falsy input keeps the old value. */
  function Merged(t: Team, name: string, city: string, gender: Option<string>, description: string): (r: Team)
    ensures r.coach == t.coach && r.players == t.players
  {
    Team(
      PickText(name, t.name),
      PickText(city, t.city),
      t.coach,
      t.players,
      if Given(gender) then gender.value else t.gender,
      PickText(description, t.description))
  }

  /** An update that gives nothing truthy leaves the team as it was. */
  lemma MergeNothingGiven(t: Team)
    ensures Merged(t, "", "", None, "") == t
  {
  }

  /** A valid gender in the update keeps the team's gender valid. */
  lemma MergeKeepsGender(t: Team, name: string, city: string, gender: Option<string>, description: string)
    requires t.gender in Genders
    requires gender.None? || gender.value in Genders
    ensures Merged(t, name, city, gender, description).gender in Genders
  {
  }

  /**
   * POST /teams: a user who already coaches a team is refused, so every
   * coach has at most one team; otherwise the caller coaches the new team.
   */
  method Create(db: Db, caller: UserId, name: string, city: string, gender: string, description: string)
    returns (status: Status, id: TeamId)
    requires db.Valid()
    modifies db
    ensures db.Valid()
    ensures status ==
      if name == "" || city == "" || gender !in Genders || description == "" then Unprocessable
      else if caller !in old(db.users) then BadRequest
      else if old(db.CoachesTeam(caller)) then Conflict
      else Created
    ensures status != Created ==> unchanged(db)
    ensures status == Created ==>
      && id !in old(db.teams)
      && db.teams == old(db.teams)[id := Team(name, city, caller, [], gender, description)]
      && db.users == old(db.users) && db.fields == old(db.fields) && db.matches == old(db.matches)
  {
    if !(name != "" && city != "" && gender in Genders && description != "") {
      return Unprocessable, 0;
    }
    if caller !in db.users {
      return BadRequest, 0;
    }
    if db.CoachesTeam(caller) {
      return Conflict, 0;
    }
    id := db.NewId();
    db.teams := db.teams[id := Team(name, city, caller, [], gender, description)];
    status := Created;
  }

  /**
   * POST /teams/:id/players, as written. After the coach and candidate
   * checks, the duplicate scan reads no email from the unpopulated player
   * list, so it never answers 409: the candidate is appended and saved even
   * when already listed. Nothing keeps the coach out of the list either.
   */
  method AddPlayer(db: Db, caller: UserId, teamId: TeamId, playerId: UserId, formatOk: bool) returns (status: Status)
    requires db.Valid()
    modifies db
    ensures db.Valid()
    ensures status ==
      if !formatOk then Unprocessable
      else if caller !in old(db.users) then BadRequest
      else if teamId !in old(db.teams) then BadRequest
      else if old(db.teams)[teamId].coach != caller then Forbidden
      else if playerId !in old(db.users) then NotFound
      else Ok
    ensures status != Ok ==> unchanged(db)
    ensures status == Ok ==>
      && db.teams == old(db.teams)[teamId := old(db.teams)[teamId].(players := old(db.teams)[teamId].players + [playerId])]
      && db.users == old(db.users) && db.fields == old(db.fields) && db.matches == old(db.matches)
      && db.nextId == old(db.nextId)
  {
    if !formatOk {
      return Unprocessable;
    }
    if caller !in db.users {
      return BadRequest;
    }
    if teamId !in db.teams {
      return BadRequest;
    }
    var team := db.teams[teamId];
    if team.coach != caller {
      return Forbidden;
    }
    if playerId !in db.users {
      return NotFound;
    }
    var playerUser := db.users[playerId];
    var replies := DuplicateReplies(EmailsAsRead(team.players), playerUser.email);
    NoEntryMatches(team.players, playerUser.email);
    // A 409 from the callback would not stop the handler; a second one would throw.
    if replies < 2 {
      team := team.(players := team.players + [playerId]);
      db.teams := db.teams[teamId := team];
    }
    status := if replies == 0 then Ok else Conflict;
  }

  /**
   * POST /teams/:id/players with the duplicate check the handler evidently
   * intends (the commented-out `includes` test before the scan): a listed
   * candidate answers 409 and the team is left as it was, so a list without
   * repeats stays without repeats.
   */
  method AddPlayerChecked(db: Db, caller: UserId, teamId: TeamId, playerId: UserId, formatOk: bool) returns (status: Status)
    requires db.Valid()
    modifies db
    ensures db.Valid()
    ensures status ==
      if !formatOk then Unprocessable
      else if caller !in old(db.users) then BadRequest
      else if teamId !in old(db.teams) then BadRequest
      else if old(db.teams)[teamId].coach != caller then Forbidden
      else if playerId !in old(db.users) then NotFound
      else if playerId in old(db.teams)[teamId].players then Conflict
      else Ok
    ensures status != Ok ==> unchanged(db)
    ensures status == Ok ==>
      && db.teams == old(db.teams)[teamId := old(db.teams)[teamId].(players := old(db.teams)[teamId].players + [playerId])]
      && db.users == old(db.users) && db.fields == old(db.fields) && db.matches == old(db.matches)
      && db.nextId == old(db.nextId)
    ensures teamId in old(db.teams) && NoDuplicates(old(db.teams)[teamId].players) ==>
      teamId in db.teams && NoDuplicates(db.teams[teamId].players)
  {
    if !formatOk {
      return Unprocessable;
    }
    if caller !in db.users {
      return BadRequest;
    }
    if teamId !in db.teams {
      return BadRequest;
    }
    var team := db.teams[teamId];
    if team.coach != caller {
      return Forbidden;
    }
    if playerId !in db.users {
      return NotFound;
    }
    if playerId in team.players {
      return Conflict;
    }
    if NoDuplicates(team.players) {
      AppendKeepsNoDuplicates(team.players, playerId);
    }
    team := team.(players := team.players + [playerId]);
    db.teams := db.teams[teamId := team];
    status := Ok;
  }

  /** PUT /teams/:id: the coach merges the attributes given; coach and players never change. */
  method Update(db: Db, caller: UserId, teamId: TeamId, name: string, city: string, gender: Option<string>, description: string, formatOk: bool)
    returns (status: Status)
    requires db.Valid()
    modifies db
    ensures db.Valid()
    ensures status ==
      if !formatOk || (gender.Some? && gender.value !in Genders) then Unprocessable
      else if caller !in old(db.users) then BadRequest
      else if teamId !in old(db.teams) then InternalError
      else if old(db.teams)[teamId].coach != caller then Forbidden
      else Ok
    ensures status != Ok ==> unchanged(db)
    ensures status == Ok ==>
      && db.teams == old(db.teams)[teamId := Merged(old(db.teams)[teamId], name, city, gender, description)]
      && db.users == old(db.users) && db.fields == old(db.fields) && db.matches == old(db.matches)
      && db.nextId == old(db.nextId)
  {
    if !(formatOk && (gender.None? || gender.value in Genders)) {
      return Unprocessable;
    }
    if caller !in db.users {
      return BadRequest;
    }
    if teamId !in db.teams {
      return InternalError;
    }
    var team := db.teams[teamId];
    if team.coach != caller {
      return Forbidden;
    }
    db.teams := db.teams[teamId := Merged(team, name, city, gender, description)];
    status := Ok;
  }

  /** DELETE /teams/:id: only the coach removes the team; matches that name it are left as they are. */
  method Delete(db: Db, caller: UserId, teamId: TeamId, formatOk: bool) returns (status: Status)
    requires db.Valid()
    modifies db
    ensures db.Valid()
    ensures status ==
      if !formatOk then Unprocessable
      else if caller !in old(db.users) then BadRequest
      else if teamId !in old(db.teams) then InternalError
      else if old(db.teams)[teamId].coach != caller then Forbidden
      else Ok
    ensures status != Ok ==> unchanged(db)
    ensures status == Ok ==>
      && db.teams == old(db.teams) - {teamId}
      && db.users == old(db.users) && db.fields == old(db.fields) && db.matches == old(db.matches)
      && db.nextId == old(db.nextId)
  {
    if !formatOk {
      return Unprocessable;
    }
    if caller !in db.users {
      return BadRequest;
    }
    if teamId !in db.teams {
      return InternalError;
    }
    if db.teams[teamId].coach != caller {
      return Forbidden;
    }
    db.teams := db.teams - {teamId};
    status := Ok;
  }
}
