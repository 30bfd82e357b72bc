/**
 * The match routes (src/api/match.controller.ts). A coach schedules a match
 * for the team they coach; afterwards only the coach of the home team may
 * change or delete it. Neither the order of the two times nor the difference
 * between home and away team is checked.
 */
module ApiMatches {
  import opened Common
  import opened ApiStore

  /**
   * Populating a reference: the referenced document when it still exists,
   * null otherwise.
   */
  function Populated(ref: Option<nat>, present: set<nat>): (r: Option<nat>)
  {
    if ref.Some? && ref.value in present then ref else None
  }

  /**
   * The merged record of PUT /matches/:id. A given input replaces the old
   * value; an absent one keeps the value the handler read, and for the away
   * team and the field that is the populated reference, null once the team
   * or field has been deleted.
   */
  function Merged(m: Match, teams: map<TeamId, Team>, fields: map<FieldId, Field>,
                  awayTeam: Option<TeamId>, field: Option<FieldId>, start: Option<int>, end: Option<int>): (r: Match)
    ensures r.homeTeam == m.homeTeam
    ensures awayTeam.Some? ==> r.awayTeam == awayTeam
    ensures awayTeam.None? ==>
      (r.awayTeam.Some? <==> m.awayTeam.Some? && m.awayTeam.value in teams) && (r.awayTeam.Some? ==> r.awayTeam == m.awayTeam)
    ensures field.Some? ==> r.field == field
    ensures field.None? ==>
      (r.field.Some? <==> m.field.Some? && m.field.value in fields) && (r.field.Some? ==> r.field == m.field)
    ensures r.startDateTime == (if start.Some? then start.value else m.startDateTime)
    ensures r.endDateTime == (if end.Some? then end.value else m.endDateTime)
  {
    Match(
      m.homeTeam,
      if awayTeam.Some? then awayTeam else Populated(m.awayTeam, teams.Keys),
      if field.Some? then field else Populated(m.field, fields.Keys),
      PickSome(start, m.startDateTime),
      PickSome(end, m.endDateTime))
  }

  /**
   * An update that gives nothing leaves the match as it was exactly when its
   * away team and field still exist (or are already null).
   */
  lemma MergeNothingGiven(m: Match, teams: map<TeamId, Team>, fields: map<FieldId, Field>)
    ensures Merged(m, teams, fields, None, None, None, None) == m <==>
      (m.awayTeam.Some? ==> m.awayTeam.value in teams) && (m.field.Some? ==> m.field.value in fields)
  {
    var r := Merged(m, teams, fields, None, None, None, None);
    if m.awayTeam.Some? && m.awayTeam.value !in teams {
      assert r.awayTeam != m.awayTeam;
    }
    if m.field.Some? && m.field.value !in fields {
      assert r.field != m.field;
    }
  }

  /**
   * POST /matches: the caller's own team is the home team; the away team,
   * field and times are stored as given.
   */
  method Create(db: Db, caller: UserId, awayTeam: TeamId, field: FieldId, start: int, end: int, formatOk: bool)
    returns (status: Status, id: MatchId)
    requires db.Valid()
    modifies db
    ensures db.Valid()
    ensures status ==
      if !formatOk then Unprocessable
      else if caller !in old(db.users) then BadRequest
      else if !old(db.CoachesTeam(caller)) then NotFound
      else Created
    ensures status != Created ==> unchanged(db)
    ensures status == Created ==>
      && id !in old(db.matches)
      && id in db.matches
      && db.matches == old(db.matches)[id := db.matches[id]]
      && db.matches[id].homeTeam in db.teams
      && db.teams[db.matches[id].homeTeam].coach == caller
      && db.matches[id] == Match(db.matches[id].homeTeam, Some(awayTeam), Some(field), start, end)
      && db.users == old(db.users) && db.teams == old(db.teams) && db.fields == old(db.fields)
  {
    if !formatOk {
      return Unprocessable, 0;
    }
    if caller !in db.users {
      return BadRequest, 0;
    }
    var team := db.TeamOfCoach(caller);
    if team.None? {
      return NotFound, 0;
    }
    id := db.NewId();
    db.matches := db.matches[id := Match(team.value, Some(awayTeam), Some(field), start, end)];
    status := Created;
  }

  /** GET /matches/:id: an unknown match answers 400. */
  method Get(db: Db, matchId: MatchId, formatOk: bool) returns (status: Status, found: Option<Match>)
    ensures status ==
      if !formatOk then Unprocessable
      else if matchId !in db.matches then BadRequest
      else Ok
    ensures found.Some? <==> status == Ok
    ensures status == Ok ==> found.value == db.matches[matchId]
  {
    if !formatOk {
      return Unprocessable, None;
    }
    if matchId !in db.matches {
      return BadRequest, None;
    }
    return Ok, Some(db.matches[matchId]);
  }

  /**
   * `match.homeTeam.coach.equals(user.id)` on a match whose home team is
   * resolved from the store: a home team that no longer exists resolves to
   * null, and reading its coach throws.
   */
  function HomeCoachCheck(teams: map<TeamId, Team>, m: Match, caller: UserId): (status: Status)
  {
    if m.homeTeam !in teams then Uncaught
    else if teams[m.homeTeam].coach != caller then Forbidden
    else Ok
  }

  /**
   * PUT /matches/:id: the home team's coach merges the fields given; the home
   * team never changes, and an away team or field that no longer exists is
   * written back as null unless the request replaces it.
   */
  method Update(db: Db, caller: UserId, matchId: MatchId, awayTeam: Option<TeamId>, field: Option<FieldId>, start: Option<int>, end: Option<int>, formatOk: bool)
    returns (status: Status)
    requires db.Valid()
    modifies db
    ensures db.Valid()
    ensures status ==
      if !formatOk then Unprocessable
      else if caller !in old(db.users) then BadRequest
      else if matchId !in old(db.matches) then InternalError
      else HomeCoachCheck(old(db.teams), old(db.matches)[matchId], caller)
    ensures status != Ok ==> unchanged(db)
    ensures status == Ok ==>
      && db.matches == old(db.matches)[matchId := Merged(old(db.matches)[matchId], old(db.teams), old(db.fields), awayTeam, field, start, end)]
      && db.users == old(db.users) && db.teams == old(db.teams) && db.fields == old(db.fields)
      && db.nextId == old(db.nextId)
  {
    if !formatOk {
      return Unprocessable;
    }
    if caller !in db.users {
      return BadRequest;
    }
    if matchId !in db.matches {
      return InternalError;
    }
    var m := db.matches[matchId];
    var check := HomeCoachCheck(db.teams, m, caller);
    if check != Ok {
      return check;
    }
    db.matches := db.matches[matchId := Merged(m, db.teams, db.fields, awayTeam, field, start, end)];
    status := Ok;
  }

  /** DELETE /matches/:id: only the home team's coach removes the match. */
  method Delete(db: Db, caller: UserId, matchId: MatchId, formatOk: bool) returns (status: Status)
    requires db.Valid()
    modifies db
    ensures db.Valid()
    ensures status ==
      if !formatOk then Unprocessable
      else if caller !in old(db.users) then BadRequest
      else if matchId !in old(db.matches) then InternalError
      else HomeCoachCheck(old(db.teams), old(db.matches)[matchId], caller)
    ensures status != Ok ==> unchanged(db)
    ensures status == Ok ==>
      && db.matches == old(db.matches) - {matchId}
      && db.users == old(db.users) && db.teams == old(db.teams) && db.fields == old(db.fields)
      && db.nextId == old(db.nextId)
  {
    if !formatOk {
      return Unprocessable;
    }
    if caller !in db.users {
      return BadRequest;
    }
    if matchId !in db.matches {
      return InternalError;
    }
    var check := HomeCoachCheck(db.teams, db.matches[matchId], caller);
    if check != Ok {
      return check;
    }
    db.matches := db.matches - {matchId};
    status := Ok;
  }
}
