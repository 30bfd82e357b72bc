/**
 * The first generation's registration route (src/api/controllers/auth.controller.ts).
 * Password hashing happens in the user schema's save hook and is not part of
 * this model; the stored password stands for its hash.
 */
module LegacyAuth {
  import opened Common
  import opened LegacyStore

  /** POST /auth/register: a new email creates exactly one account, a known one is refused. */
  method Register(db: Db, email: string, name: string, password: string) returns (status: Status, id: UserId)
    requires db.Valid()
    modifies db
    ensures db.Valid()
    ensures status ==
      if email == "" || name == "" || password == "" then BadRequest
      else if EmailTaken(old(db.users), email) then Conflict
      else Created
    ensures status != Created ==> unchanged(db)
    ensures status == Created ==>
      && id !in old(db.users)
      && db.users == old(db.users)[id := User(email, name, password)]
      && db.teams == old(db.teams) && db.fields == old(db.fields)
  {
    if !(email != "" && name != "" && password != "") {
      return BadRequest, 0;
    }
    if EmailTaken(db.users, email) {
      return Conflict, 0;
    }
    id := db.NewId();
    db.users := db.users[id := User(email, name, password)];
    status := Created;
  }
}
