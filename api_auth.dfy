/**
 * The second generation's registration route (src/api/auth.controller.ts).
 * The email format check is a library predicate and enters as `emailOk`;
 * hashing the password happens in the user schema's save hook and is not
 * part of this model.
 */
module ApiAuth {
  import opened Common
  import opened ApiStore

  /**
   * `validationResult(req).array()`: one message for each validator the
   * request fails, in the order the validators are declared. The email check
   * enters as `emailOk`; the username must not be empty and the password
   * must be at least 3 characters long.
   */
  function ValidationErrors(emailOk: bool, username: string, password: string): (errors: seq<string>)
    ensures |errors| <= 3
    ensures errors == [] <==> emailOk && username != "" && |password| >= 3
    ensures !emailOk <==> "Invalid email" in errors
    ensures username == "" <==> "Username is empty" in errors
    ensures |password| < 3 <==> "Password should at least be 3 characters long" in errors
  {
    (if emailOk then [] else ["Invalid email"])
    + (if username != "" then [] else ["Username is empty"])
    + (if |password| >= 3 then [] else ["Password should at least be 3 characters long"])
  }

  /** POST /auth/register: validation comes before any store lookup; a known email is refused. */
  method Register(db: Db, email: string, username: string, password: string, emailOk: bool) returns (status: Status, id: UserId)
    requires db.Valid()
    modifies db
    ensures db.Valid()
    ensures status ==
      if ValidationErrors(emailOk, username, password) != [] then Unprocessable
      else if EmailTaken(old(db.users), email) then Conflict
      else Created
    ensures status != Created ==> unchanged(db)
    ensures status == Created ==>
      && id !in old(db.users)
      && db.users == old(db.users)[id := User(email, username, password)]
      && db.teams == old(db.teams) && db.fields == old(db.fields) && db.matches == old(db.matches)
  {
    var errors := ValidationErrors(emailOk, username, password);
    if errors != [] {
      return Unprocessable, 0;
    }
    if EmailTaken(db.users, email) {
      return Conflict, 0;
    }
    id := db.NewId();
    db.users := db.users[id := User(email, username, password)];
    status := Created;
  }
}
