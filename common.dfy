/**
 * Definitions shared by both generations of the club backend's controllers:
 * identities, the user record, locations, the HTTP status codes the handlers
 * answer with, and the sequence helpers the handlers' checks are built from.
 */
module Common {

  /** Users are referred to by an opaque identity (a database object id). */
  type UserId = nat

  datatype Option<T> = None | Some(value: T)

  /** The outcome a route handler answers with: an HTTP status, or a thrown error. */
  datatype Status =
    | Ok                  // 200
    | Created             // 201
    | BadRequest          // 400
    | Forbidden           // 403
    | NotFound            // 404
    | Conflict            // 409
    | PreconditionFailed  // 412
    | Unprocessable       // 422
    | InternalError       // 500
      /** The handler threw, and the error went to the express error middleware. */
    | Uncaught

  /** A user account; `password` stands for whatever the schema's save hook stores. */
  datatype User = User(email: string, name: string, password: string)

  /** The postal location of a playing field. */
  datatype Location = Location(address: string, number: string, zip: string)

  predicate NoDuplicates<T(==)>(s: seq<T>) {
    forall i, j | 0 <= i < j < |s| :: s[i] != s[j]
  }

  /** The store query `findOne({ email })` finds a user. */
  predicate EmailTaken(users: map<UserId, User>, email: string) {
    exists u | u in users :: users[u].email == email
  }

  /**
   * Storing a user under a fresh identity takes that user's email and leaves
   * every other email taken or free as it was.
   */
  lemma {:induction false} StoreUserTakesEmail(users: map<UserId, User>, id: UserId, u: User, email: string)
    requires id !in users
    ensures EmailTaken(users[id := u], email) <==> email == u.email || EmailTaken(users, email)
  {
    var after := users[id := u];
    if email == u.email {
      assert after[id].email == email;
    } else if EmailTaken(users, email) {
      var w :| w in users && users[w].email == email;
      assert w != id && after[w] == users[w];
    }
    if EmailTaken(after, email) && email != u.email {
      var w :| w in after && after[w].email == email;
      assert w != id && w in users && users[w] == after[w];
    }
  }

  /** No two accounts share an email address. */
  predicate EmailsUnique(users: map<UserId, User>) {
    forall u, v | u in users && v in users && u != v :: users[u].email != users[v].email
  }

  /** JavaScript truthiness of an optional text: present and not empty. */
  predicate Given(s: Option<string>) {
    s.Some? && s.value != ""
  }

  /** `given ? given : current` for a text value, where "" stands for an absent or empty one. */
  function PickText(given: string, current: string): (r: string) {
    if given != "" then given else current
  }

  /** `given ? given : current` for a number, where 0 stands for an absent or zero one. */
  function PickNumber(given: int, current: int): (r: int) {
    if given != 0 then given else current
  }

  /** `given ? given : current` for an object or reference, which is falsy only when absent. */
  function PickSome<T>(given: Option<T>, current: T): (r: T) {
    if given.Some? then given.value else current
  }

  /**
   * `s.filter(y => y !== x)`: every occurrence of `x` is dropped and every
   * other element is kept.
   */
  function Without<T(==)>(s: seq<T>, x: T): (r: seq<T>)
    ensures forall y | y in r :: y in s && y != x
    ensures forall y | y in s && y != x :: y in r
    ensures |r| <= |s|
    ensures x !in s ==> r == s
  {
    if s == [] then []
    else if s[0] == x then Without(s[1..], x)
    else [s[0]] + Without(s[1..], x)
  }

  /** Filtering distributes over concatenation, so the kept elements stay in their order. */
  lemma {:induction false} WithoutAppend<T>(s: seq<T>, t: seq<T>, x: T)
    ensures Without(s + t, x) == Without(s, x) + Without(t, x)
  {
    if s == [] {
      assert s + t == t;
    } else {
      assert (s + t)[0] == s[0];
      assert (s + t)[1..] == s[1..] + t;
      WithoutAppend(s[1..], t, x);
    }
  }

  /** Filtering keeps every other element exactly as often as it occurred. */
  lemma {:induction false} WithoutCounts<T>(s: seq<T>, x: T, y: T)
    ensures multiset(Without(s, x))[x] == 0
    ensures y != x ==> multiset(Without(s, x))[y] == multiset(s)[y]
  {
    if s != [] {
      assert s == [s[0]] + s[1..];
      WithoutCounts(s[1..], x, y);
    }
  }

  /** Removing a value twice is the same as removing it once. */
  lemma WithoutIdempotent<T>(s: seq<T>, x: T)
    ensures Without(Without(s, x), x) == Without(s, x)
  {
  }

  /** A filtered list without duplicates stays without duplicates. */
  lemma {:induction false} WithoutKeepsNoDuplicates<T>(s: seq<T>, x: T)
    requires NoDuplicates(s)
    ensures NoDuplicates(Without(s, x))
  {
    if s != [] {
      WithoutKeepsNoDuplicates(s[1..], x);
      assert s[0] !in s[1..] by {
        forall k | 0 <= k < |s[1..]| ensures s[1..][k] != s[0] {
          assert s[1..][k] == s[k + 1];
        }
      }
    }
  }

  /** Appending a value that is not present keeps a list without duplicates. */
  lemma AppendKeepsNoDuplicates<T>(s: seq<T>, x: T)
    requires NoDuplicates(s) && x !in s
    ensures NoDuplicates(s + [x])
  {
    forall i, j | 0 <= i < j < |s + [x]| ensures (s + [x])[i] != (s + [x])[j] {
      if j == |s| {
        assert (s + [x])[i] == s[i];
      }
    }
  }
}
