/**
 * The first generation's field routes (src/api/controllers/field.controller.ts).
 * A field's contacts play the part a team's coach plays: only a contact may
 * add contacts or facilities, change the field or delete it.
 */
module LegacyFields {
  import opened Common
  import opened LegacyStore

  /** The truthy merge of PUT /fields/:id: an absent or falsy input keeps the old value. */
  function Merged(f: Field, name: string, location: Option<Location>, length: int, width: int, description: string): (r: Field)
    ensures r.contacts == f.contacts && r.facilities == f.facilities
  {
    f.(name := PickText(name, f.name),
       location := PickSome(location, f.location),
       length := PickNumber(length, f.length),
       width := PickNumber(width, f.width),
       description := PickText(description, f.description))
  }

  /** An update that gives nothing truthy leaves the field as it was. */
  lemma MergeNothingGiven(f: Field)
    ensures Merged(f, "", None, 0, 0, "") == f
  {
  }

  /** Merging the same input a second time changes nothing more. */
  lemma MergeIdempotent(f: Field, name: string, location: Option<Location>, length: int, width: int, description: string)
    ensures Merged(Merged(f, name, location, length, width, description), name, location, length, width, description)
         == Merged(f, name, location, length, width, description)
  {
  }

  /** POST /fields: every required property must be truthy; the creator becomes the only contact. */
  method Create(db: Db, caller: UserId, name: string, location: Option<Location>, length: int, width: int, description: string)
    returns (status: Status, id: FieldId)
    requires db.Valid()
    modifies db
    ensures db.Valid()
    ensures status ==
      if name == "" || location.None? || length == 0 || width == 0 || description == "" then PreconditionFailed
      else if caller !in old(db.users) then BadRequest
      else Created
    ensures status != Created ==> unchanged(db)
    ensures status == Created ==>
      && id !in old(db.fields)
      && db.fields == old(db.fields)[id := Field(name, [caller], location.value, [], length, width, description)]
      && db.users == old(db.users) && db.teams == old(db.teams)
  {
    if !(name != "" && location.Some? && length != 0 && width != 0 && description != "") {
      return PreconditionFailed, 0;
    }
    if caller !in db.users {
      return BadRequest, 0;
    }
    id := db.NewId();
    db.fields := db.fields[id := Field(name, [caller], location.value, [], length, width, description)];
    status := Created;
  }

  /**
   * POST /fields/:id/contacts: an existing contact adds another user; the new
   * contact needs no rights of its own, but must exist and not be listed yet.
   */
  method AddContact(db: Db, caller: UserId, fieldId: FieldId, contact: Option<UserId>) returns (status: Status)
    requires db.Valid()
    modifies db
    ensures db.Valid()
    ensures status ==
      if contact.None? then PreconditionFailed
      else if caller !in old(db.users) then BadRequest
      else if fieldId !in old(db.fields) then BadRequest
      else if caller !in old(db.fields)[fieldId].contacts then Forbidden
      else if contact.value !in old(db.users) then NotFound
      else if contact.value in old(db.fields)[fieldId].contacts then Conflict
      else Ok
    ensures status != Ok ==> unchanged(db)
    ensures status == Ok ==>
      && db.fields == old(db.fields)[fieldId := old(db.fields)[fieldId].(contacts := old(db.fields)[fieldId].contacts + [contact.value])]
      && db.users == old(db.users) && db.teams == old(db.teams) && db.nextId == old(db.nextId)
  {
    if contact.None? {
      return PreconditionFailed;
    }
    if caller !in db.users {
      return BadRequest;
    }
    if fieldId !in db.fields {
      return BadRequest;
    }
    var field := db.fields[fieldId];
    if caller !in field.contacts {
      return Forbidden;
    }
    var newContact := contact.value;
    if newContact !in db.users {
      return NotFound;
    }
    if newContact in field.contacts {
      return Conflict;
    }
    AppendKeepsNoDuplicates(field.contacts, newContact);
    field := field.(contacts := field.contacts + [newContact]);
    db.fields := db.fields[fieldId := field];
    status := Ok;
  }

  /** POST /fields/:id/facilities: a contact adds a facility tag that is not listed yet. */
  method AddFacility(db: Db, caller: UserId, fieldId: FieldId, facility: string) returns (status: Status)
    requires db.Valid()
    modifies db
    ensures db.Valid()
    ensures status ==
      if facility == "" then PreconditionFailed
      else if caller !in old(db.users) then BadRequest
      else if fieldId !in old(db.fields) then BadRequest
      else if caller !in old(db.fields)[fieldId].contacts then Forbidden
      else if facility in old(db.fields)[fieldId].facilities then Conflict
      else Ok
    ensures status != Ok ==> unchanged(db)
    ensures status == Ok ==>
      && db.fields == old(db.fields)[fieldId := old(db.fields)[fieldId].(facilities := old(db.fields)[fieldId].facilities + [facility])]
      && db.users == old(db.users) && db.teams == old(db.teams) && db.nextId == old(db.nextId)
  {
    if facility == "" {
      return PreconditionFailed;
    }
    if caller !in db.users {
      return BadRequest;
    }
    if fieldId !in db.fields {
      return BadRequest;
    }
    var field := db.fields[fieldId];
    if caller !in field.contacts {
      return Forbidden;
    }
    if facility in field.facilities {
      return Conflict;
    }
    AppendKeepsNoDuplicates(field.facilities, facility);
    field := field.(facilities := field.facilities + [facility]);
    db.fields := db.fields[fieldId := field];
    status := Ok;
  }

  /** PUT /fields/:id: a contact changes the attributes it gives; contacts and facilities stay. */
  method Update(db: Db, caller: UserId, fieldId: FieldId, name: string, location: Option<Location>, length: int, width: int, description: string)
    returns (status: Status)
    requires db.Valid()
    modifies db
    ensures db.Valid()
    ensures status ==
      if caller !in old(db.users) then BadRequest
      else if fieldId !in old(db.fields) then InternalError
      else if caller !in old(db.fields)[fieldId].contacts then Forbidden
      else Ok
    ensures status != Ok ==> unchanged(db)
    ensures status == Ok ==>
      && db.fields == old(db.fields)[fieldId := Merged(old(db.fields)[fieldId], name, location, length, width, description)]
      && db.users == old(db.users) && db.teams == old(db.teams) && db.nextId == old(db.nextId)
  {
    if caller !in db.users {
      return BadRequest;
    }
    if fieldId !in db.fields {
      return InternalError;
    }
    var field := db.fields[fieldId];
    if caller !in field.contacts {
      return Forbidden;
    }
    field := field.(name := if name != "" then name else field.name);
    field := field.(location := if location.Some? then location.value else field.location);
    field := field.(length := if length != 0 then length else field.length);
    field := field.(width := if width != 0 then width else field.width);
    field := field.(description := if description != "" then description else field.description);
    db.fields := db.fields[fieldId := field];
    status := Ok;
  }

  /** DELETE /fields/:id: only a contact removes the field. */
  method Delete(db: Db, caller: UserId, fieldId: FieldId) returns (status: Status)
    requires db.Valid()
    modifies db
    ensures db.Valid()
    ensures status ==
      if caller !in old(db.users) then BadRequest
      else if fieldId !in old(db.fields) then InternalError
      else if caller !in old(db.fields)[fieldId].contacts then Forbidden
      else Ok
    ensures status != Ok ==> unchanged(db)
    ensures status == Ok ==>
      && db.fields == old(db.fields) - {fieldId}
      && db.users == old(db.users) && db.teams == old(db.teams) && db.nextId == old(db.nextId)
  {
    if caller !in db.users {
      return BadRequest;
    }
    if fieldId !in db.fields {
      return InternalError;
    }
    if caller !in db.fields[fieldId].contacts {
      return Forbidden;
    }
    db.fields := db.fields - {fieldId};
    status := Ok;
  }
}
