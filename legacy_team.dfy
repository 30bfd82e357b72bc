/**
 * The first generation's team routes (src/api/controllers/team.controller.ts).
 * Every handler resolves the authenticated caller, loads the team, checks that
 * the caller is its coach and only then looks at the candidate; the member
 * lists are changed in place on the loaded document, which is then saved.
 */
module LegacyTeams {
  import opened Common
  import opened LegacyStore

  /** POST /teams: the caller becomes the coach of a new team with empty member lists. */
  method Create(db: Db, caller: UserId, name: string, city: string, gender: string, description: string)
    returns (status: Status, id: TeamId)
    requires db.Valid()
    modifies db
    ensures db.Valid()
    ensures status ==
      if name == "" || city == "" || gender == "" || description == "" then PreconditionFailed
      else if caller !in old(db.users) then BadRequest
      else Created
    ensures status != Created ==> unchanged(db)
    ensures status == Created ==>
      && id !in old(db.teams)
      && db.teams == old(db.teams)[id := Team(name, city, caller, [], [], gender, description)]
      && db.users == old(db.users) && db.fields == old(db.fields)
  {
    if !(name != "" && city != "" && gender != "" && description != "") {
      return PreconditionFailed, 0;
    }
    if caller !in db.users {
      return BadRequest, 0;
    }
    id := db.NewId();
    db.teams := db.teams[id := Team(name, city, caller, [], [], gender, description)];
    status := Created;
  }

  /**
   * POST /teams/:id/players. The ownership check comes before the candidate
   * is looked up; the coach and users already listed are refused, so the
   * coach never becomes a player and the list never repeats a user.
   */
  method AddPlayer(db: Db, caller: UserId, teamId: TeamId, player: Option<UserId>) returns (status: Status)
    requires db.Valid()
    modifies db
    ensures db.Valid()
    ensures status ==
      if player.None? then PreconditionFailed
      else if caller !in old(db.users) then BadRequest
      else if teamId !in old(db.teams) then BadRequest
      else if old(db.teams)[teamId].coach != caller then Forbidden
      else if player.value !in old(db.users) then NotFound
      else if player.value == old(db.teams)[teamId].coach then Conflict
      else if player.value in old(db.teams)[teamId].players then Conflict
      else Ok
    ensures status != Ok ==> unchanged(db)
    ensures status == Ok ==>
      && db.teams == old(db.teams)[teamId := old(db.teams)[teamId].(players := old(db.teams)[teamId].players + [player.value])]
      && db.users == old(db.users) && db.fields == old(db.fields) && db.nextId == old(db.nextId)
  {
    if player.None? {
      return PreconditionFailed;
    }
    if caller !in db.users {
      return BadRequest;
    }
    if teamId !in db.teams {
      return BadRequest;
    }
    var team := db.teams[teamId];
    if team.coach != caller {
      return Forbidden;
    }
    var user := player.value;
    if user !in db.users {
      return NotFound;
    }
    if team.coach == user {
      return Conflict;
    }
    if user in team.players {
      return Conflict;
    }
    AppendKeepsNoDuplicates(team.players, user);
    team := team.(players := team.players + [user]);
    db.teams := db.teams[teamId := team];
    status := Ok;
  }

  /**
   * POST /teams/:id/spareplayers: the same checks as AddPlayer, except that
   * the duplicate test looks at the spare list only, so a user may be both a
   * player and a spare player.
   */
  method AddSparePlayer(db: Db, caller: UserId, teamId: TeamId, player: Option<UserId>) returns (status: Status)
    requires db.Valid()
    modifies db
    ensures db.Valid()
    ensures status ==
      if player.None? then PreconditionFailed
      else if caller !in old(db.users) then BadRequest
      else if teamId !in old(db.teams) then BadRequest
      else if old(db.teams)[teamId].coach != caller then Forbidden
      else if player.value !in old(db.users) then NotFound
      else if player.value == old(db.teams)[teamId].coach then Conflict
      else if player.value in old(db.teams)[teamId].sparePlayers then Conflict
      else Ok
    ensures status != Ok ==> unchanged(db)
    ensures status == Ok ==>
      && db.teams == old(db.teams)[teamId := old(db.teams)[teamId].(sparePlayers := old(db.teams)[teamId].sparePlayers + [player.value])]
      && db.users == old(db.users) && db.fields == old(db.fields) && db.nextId == old(db.nextId)
  {
    if player.None? {
      return PreconditionFailed;
    }
    if caller !in db.users {
      return BadRequest;
    }
    if teamId !in db.teams {
      return BadRequest;
    }
    var team := db.teams[teamId];
    if team.coach != caller {
      return Forbidden;
    }
    var user := player.value;
    if user !in db.users {
      return NotFound;
    }
    if team.coach == user {
      return Conflict;
    }
    if user in team.sparePlayers {
      return Conflict;
    }
    AppendKeepsNoDuplicates(team.sparePlayers, user);
    team := team.(sparePlayers := team.sparePlayers + [user]);
    db.teams := db.teams[teamId := team];
    status := Ok;
  }

  /**
   * PUT /teams/:id: all four attributes are required and replace the old
   * ones; the coach and both member lists stay as they were.
   */
  method Update(db: Db, caller: UserId, teamId: TeamId, name: string, city: string, gender: string, description: string)
    returns (status: Status)
    requires db.Valid()
    modifies db
    ensures db.Valid()
    ensures status ==
      if name == "" || city == "" || gender == "" || description == "" then PreconditionFailed
      else if caller !in old(db.users) then BadRequest
      else if teamId !in old(db.teams) then InternalError
      else if old(db.teams)[teamId].coach != caller then Forbidden
      else Ok
    ensures status != Ok ==> unchanged(db)
    ensures status == Ok ==>
      && db.teams == old(db.teams)[teamId := old(db.teams)[teamId].(name := name, city := city, gender := gender, description := description)]
      && db.users == old(db.users) && db.fields == old(db.fields) && db.nextId == old(db.nextId)
  {
    if !(name != "" && city != "" && gender != "" && description != "") {
      return PreconditionFailed;
    }
    if caller !in db.users {
      return BadRequest;
    }
    if teamId !in db.teams {
      return InternalError;
    }
    var team := db.teams[teamId];
    if team.coach != caller {
      return Forbidden;
    }
    team := team.(name := name);
    team := team.(city := city);
    team := team.(gender := gender);
    team := team.(description := description);
    db.teams := db.teams[teamId := team];
    status := Ok;
  }

  /** DELETE /teams/:id: only the coach removes the team. */
  method Delete(db: Db, caller: UserId, teamId: TeamId) returns (status: Status)
    requires db.Valid()
    modifies db
    ensures db.Valid()
    ensures status ==
      if caller !in old(db.users) then BadRequest
      else if teamId !in old(db.teams) then InternalError
      else if old(db.teams)[teamId].coach != caller then Forbidden
      else Ok
    ensures status != Ok ==> unchanged(db)
    ensures status == Ok ==>
      && db.teams == old(db.teams) - {teamId}
      && db.users == old(db.users) && db.fields == old(db.fields) && db.nextId == old(db.nextId)
  {
    if caller !in db.users {
      return BadRequest;
    }
    if teamId !in db.teams {
      return InternalError;
    }
    if db.teams[teamId].coach != caller {
      return Forbidden;
    }
    db.teams := db.teams - {teamId};
    status := Ok;
  }
}
