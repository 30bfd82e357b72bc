/**
 * The second generation's field routes (src/api/field.controller.ts). A field
 * has a single owner, who alone may add or remove facilities, change the
 * field or delete it.
 */
module ApiFields {
  import opened Common
  import opened ApiStore

  /** The merged record of PUT /fields/:id: an absent or falsy input keeps the old value. */
  function Merged(f: Field, name: string, location: Option<Location>, length: int, width: int, description: string): (r: Field)
    ensures r.owner == f.owner && r.facilities == f.facilities
  {
    Field(
      PickText(name, f.name),
      f.owner,
      PickSome(location, f.location),
      f.facilities,
      PickNumber(length, f.length),
      PickNumber(width, f.width),
      PickText(description, f.description))
  }

  /** An update that gives nothing truthy leaves the field as it was. */
  lemma MergeNothingGiven(f: Field)
    ensures Merged(f, "", None, 0, 0, "") == f
  {
  }

  /** Merging the same input a second time changes nothing more. */
  lemma MergeIdempotent(f: Field, name: string, location: Option<Location>, length: int, width: int, description: string)
    ensures Merged(Merged(f, name, location, length, width, description), name, location, length, width, description)
         == Merged(f, name, location, length, width, description)
  {
  }

  /** POST /fields: the caller owns the new field, which has no facilities yet. */
  method Create(db: Db, caller: UserId, name: string, location: Option<Location>, length: int, width: int, description: string, formatOk: bool)
    returns (status: Status, id: FieldId)
    requires db.Valid()
    modifies db
    ensures db.Valid()
    ensures status ==
      if !formatOk || name == "" || location.None? || location.value.address == "" || description == "" then Unprocessable
      else if caller !in old(db.users) then BadRequest
      else Created
    ensures status != Created ==> unchanged(db)
    ensures status == Created ==>
      && id !in old(db.fields)
      && db.fields == old(db.fields)[id := Field(name, caller, location.value, [], length, width, description)]
      && db.users == old(db.users) && db.teams == old(db.teams) && db.matches == old(db.matches)
  {
    if !(formatOk && name != "" && location.Some? && location.value.address != "" && description != "") {
      return Unprocessable, 0;
    }
    if caller !in db.users {
      return BadRequest, 0;
    }
    id := db.NewId();
    db.fields := db.fields[id := Field(name, caller, location.value, [], length, width, description)];
    status := Created;
  }

  /** POST /fields/:id/facilities: the owner adds a facility tag that is not listed yet. */
  method AddFacility(db: Db, caller: UserId, fieldId: FieldId, facility: string, formatOk: bool) returns (status: Status)
    requires db.Valid()
    modifies db
    ensures db.Valid()
    ensures status ==
      if !formatOk || facility == "" then Unprocessable
      else if caller !in old(db.users) then BadRequest
      else if fieldId !in old(db.fields) then BadRequest
      else if old(db.fields)[fieldId].owner != caller then Forbidden
      else if facility in old(db.fields)[fieldId].facilities then Conflict
      else Ok
    ensures status != Ok ==> unchanged(db)
    ensures status == Ok ==>
      && db.fields == old(db.fields)[fieldId := old(db.fields)[fieldId].(facilities := old(db.fields)[fieldId].facilities + [facility])]
      && db.users == old(db.users) && db.teams == old(db.teams) && db.matches == old(db.matches)
      && db.nextId == old(db.nextId)
  {
    if !(formatOk && facility != "") {
      return Unprocessable;
    }
    if caller !in db.users {
      return BadRequest;
    }
    if fieldId !in db.fields {
      return BadRequest;
    }
    var field := db.fields[fieldId];
    if field.owner != caller {
      return Forbidden;
    }
    if facility in field.facilities {
      return Conflict;
    }
    AppendKeepsNoDuplicates(field.facilities, facility);
    field := field.(facilities := field.facilities + [facility]);
    db.fields := db.fields[fieldId := field];
    status := Ok;
  }

  /**
   * PUT /fields/:id/facilities: the owner removes every occurrence of a tag.
   * Removing a tag that is not listed is not an error and changes nothing.
   */
  method RemoveFacility(db: Db, caller: UserId, fieldId: FieldId, facility: string, formatOk: bool) returns (status: Status)
    requires db.Valid()
    modifies db
    ensures db.Valid()
    ensures status ==
      if !formatOk || facility == "" then Unprocessable
      else if caller !in old(db.users) then BadRequest
      else if fieldId !in old(db.fields) then BadRequest
      else if old(db.fields)[fieldId].owner != caller then Forbidden
      else Ok
    ensures status != Ok ==> unchanged(db)
    ensures status == Ok ==>
      && db.fields == old(db.fields)[fieldId := old(db.fields)[fieldId].(facilities := Without(old(db.fields)[fieldId].facilities, facility))]
      && db.users == old(db.users) && db.teams == old(db.teams) && db.matches == old(db.matches)
      && db.nextId == old(db.nextId)
    ensures status == Ok && facility !in old(db.fields)[fieldId].facilities ==> db.fields == old(db.fields)
  {
    if !(formatOk && facility != "") {
      return Unprocessable;
    }
    if caller !in db.users {
      return BadRequest;
    }
    if fieldId !in db.fields {
      return BadRequest;
    }
    var field := db.fields[fieldId];
    if field.owner != caller {
      return Forbidden;
    }
    WithoutKeepsNoDuplicates(field.facilities, facility);
    field := field.(facilities := Without(field.facilities, facility));
    db.fields := db.fields[fieldId := field];
    status := Ok;
  }

  /** PUT /fields/:id: the owner merges the attributes given; owner and facilities never change. */
  method Update(db: Db, caller: UserId, fieldId: FieldId, name: string, location: Option<Location>, length: int, width: int, description: string, formatOk: bool)
    returns (status: Status)
    requires db.Valid()
    modifies db
    ensures db.Valid()
    ensures status ==
      if !formatOk || (location.Some? && location.value.address == "") then Unprocessable
      else if caller !in old(db.users) then BadRequest
      else if fieldId !in old(db.fields) then InternalError
      else if old(db.fields)[fieldId].owner != caller then Forbidden
      else Ok
    ensures status != Ok ==> unchanged(db)
    ensures status == Ok ==>
      && db.fields == old(db.fields)[fieldId := Merged(old(db.fields)[fieldId], name, location, length, width, description)]
      && db.users == old(db.users) && db.teams == old(db.teams) && db.matches == old(db.matches)
      && db.nextId == old(db.nextId)
  {
    if !(formatOk && (location.None? || location.value.address != "")) {
      return Unprocessable;
    }
    if caller !in db.users {
      return BadRequest;
    }
    if fieldId !in db.fields {
      return InternalError;
    }
    var field := db.fields[fieldId];
    if field.owner != caller {
      return Forbidden;
    }
    db.fields := db.fields[fieldId := Merged(field, name, location, length, width, description)];
    status := Ok;
  }

  /** DELETE /fields/:id: only the owner removes the field. */
  method Delete(db: Db, caller: UserId, fieldId: FieldId, formatOk: bool) returns (status: Status)
    requires db.Valid()
    modifies db
    ensures db.Valid()
    ensures status ==
      if !formatOk then Unprocessable
      else if caller !in old(db.users) then BadRequest
      else if fieldId !in old(db.fields) then InternalError
      else if old(db.fields)[fieldId].owner != caller then Forbidden
      else Ok
    ensures status != Ok ==> unchanged(db)
    ensures status == Ok ==>
      && db.fields == old(db.fields) - {fieldId}
      && db.users == old(db.users) && db.teams == old(db.teams) && db.matches == old(db.matches)
      && db.nextId == old(db.nextId)
  {
    if !formatOk {
      return Unprocessable;
    }
    if caller !in db.users {
      return BadRequest;
    }
    if fieldId !in db.fields {
      return InternalError;
    }
    if db.fields[fieldId].owner != caller {
      return Forbidden;
    }
    db.fields := db.fields - {fieldId};
    status := Ok;
  }
}
