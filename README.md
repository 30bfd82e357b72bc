# Football club backend: ownership-gated mutations

This project models the route handlers of a football club's REST backend, written in Express over a MongoDB store, that change stored data: registering users, creating teams, fields and matches, adding players, contacts and facilities, and updating and deleting these documents.

Each handler runs its checks in a fixed order:
1. input validation;
2. the caller is a known user;
3. the target document exists;
4. the caller owns the target;
5. the request does not conflict with stored data.

Only then does it change the store.

The repository holds two generations of these controllers:

- **First generation** (`src/api/controllers`, modules `LegacyStore`, `LegacyAuth`, `LegacyTeams`, `LegacyFields`):
  - Teams have a player list and a spare-player list, and only the coach may change them.
  - Fields have a list of contacts, and any contact may change the field.
  - A missing body property answers 412 in the team and field routes, and 400 in registration.
- **Second generation** (the controllers directly under `src/api`, modules `ApiStore`, `ApiAuth`, `ApiTeams`, `ApiFields`, `ApiMatches`):
  - Validation rules run first and answer 422.
  - Fields have a single owner.
  - A user coaches at most one team.
  - Only the coach of a match's home team may change or delete the match.

Each generation's database is a `class Db` whose fields are maps from document ids to records. Each handler is a method that takes the database:

- It states the exact status code it answers, as an if-then-else chain in the order the source checks.
- On every error status, the database is unchanged.
- On success, it states the exact new contents of every map.
- It preserves the database invariant `Valid()`:
  - First generation: emails are unique; no coach is listed as a player of their own team; player, spare-player, contact and facility lists have no repeats; every field has a contact.
  - Second generation: emails are unique; there is one team per coach; facility lists have no repeats.

Together these contracts give the access-control property: a handler that answers anything other than success has changed nothing. A handler that changes a document did so only after checking the caller's ownership.

Inputs are modelled as follows:

- JavaScript truthiness:
  - The empty string stands for an absent or falsy text property.
  - `0` stands for an absent number.
  - `Option` stands for an absent object or id.
- Library validators whose definitions are not part of this model enter as a boolean parameter (`formatOk`, `emailOk`). These are the validators of object ids, ISO 8601 dates, postal codes, numbers and emails.
- The validators `notEmpty`, `isIn` and `isLength` are written out.

`Scenarios` holds request sequences written as methods whose contracts chain the handlers' contracts. Two of them show the second generation's add-player defect (see "## Findings"):

- The duplicate check in `src/api/team.controller.ts:114-120` compares `player.email` with the candidate's email inside a `forEach` callback.
- The team is read with a plain `findById` (`src/services/team.service.ts:9-12`), so each `player` is a bare object id and `player.email` is undefined. The comparison never holds.
- The route therefore appends and answers 200 even when the candidate is already listed. `ApiTeams.AddPlayer` models the scan as written and proves it finds nothing.
- `ApiTeams.AddPlayerChecked` is the route with the check the handler evidently intends: a listed candidate answers 409 and nothing changes.

A third scenario shows that a match update writes a null away team once that team has been deleted, because the handler writes back the populated reference.

## Model

| member | source | states |
|---|---|---|
| Common.Without | src/api/field.controller.ts:156 | `filter(f => f !== facility)`: the result holds exactly the elements of the input other than `x`, is no longer, and equals the input when `x` is absent |
| Common.WithoutAppend | src/api/field.controller.ts:156 | filtering a concatenation is the concatenation of the filtered parts |
| Common.WithoutCounts | src/api/field.controller.ts:156 | filtering removes every occurrence of `x` and keeps the count of every other element |
| Common.WithoutIdempotent | src/api/field.controller.ts:156 | filtering twice gives the same list as filtering once |
| Common.WithoutKeepsNoDuplicates | src/api/field.controller.ts:156 | filtering a list without repeats leaves a list without repeats |
| Common.StoreUserTakesEmail | src/services/auth.service.ts:4-12 | after a user is stored under a fresh id, `findOne({ email })` finds a user for that user's email, and for every other email exactly when it did before |
| Common.AppendKeepsNoDuplicates | src/api/field.controller.ts:107-113 | appending an element the list does not contain keeps it free of repeats |
| LegacyStore.Db.NewId | src/api/controllers/team.controller.ts:28-33 | the store hands out an id used by no user, team or field, and the invariant holds |
| LegacyAuth.Register | src/api/controllers/auth.controller.ts:10-35 | 400 when email, name or password is missing; 409 when a user already has the email; else 201 with exactly one new user; emails stay unique |
| LegacyTeams.Create | src/api/controllers/team.controller.ts:14-33 | 412 when a property is missing, 400 for an unknown caller, else 201 and a new team coached by the caller with no players |
| LegacyTeams.AddPlayer | src/api/controllers/team.controller.ts:41-81 | 412, 400, 400, 403 when the caller is not the coach, 404, 409 for the coach, 409 for a listed player, else 200 and the player appended; nothing else changes |
| LegacyTeams.AddSparePlayer | src/api/controllers/team.controller.ts:89-129 | the same order of checks over the spare-player list; the player list is never touched |
| LegacyTeams.Update | src/api/controllers/team.controller.ts:170-202 | 412, 400, 500 for a missing team, 403 for a non-coach, else 200 with name, city, gender and description replaced and coach and lists kept |
| LegacyTeams.Delete | src/api/controllers/team.controller.ts:210-228 | 400, 500, 403 for a non-coach, else 200 and the team removed |
| LegacyFields.Merged | src/api/controllers/field.controller.ts:192-196 | the merged field keeps its contacts and facilities |
| LegacyFields.MergeNothingGiven | src/api/controllers/field.controller.ts:192-196 | an update with only falsy inputs leaves the field unchanged |
| LegacyFields.MergeIdempotent | src/api/controllers/field.controller.ts:192-196 | repeating the same update changes nothing more |
| LegacyFields.Create | src/api/controllers/field.controller.ts:14-42 | 412 when a property is falsy, 400 for an unknown caller, else 201 and a new field whose only contact is the caller |
| LegacyFields.AddContact | src/api/controllers/field.controller.ts:50-90 | 412, 400, 400, 403 when the caller is not a contact, 404, 409 for a listed contact, else 200 and the contact appended |
| LegacyFields.AddFacility | src/api/controllers/field.controller.ts:98-133 | 412, 400, 400, 403 when the caller is not a contact, 409 for a listed facility, else 200 and the facility appended |
| LegacyFields.Update | src/api/controllers/field.controller.ts:170-199 | 400, 500, 403 when the caller is not a contact, else 200 with the merged field |
| LegacyFields.Delete | src/api/controllers/field.controller.ts:207-227 | 400, 500, 403 when the caller is not a contact, else 200 and the field removed |
| ApiStore.Db.TeamOfCoach | src/api/match.controller.ts:46-49 | `getByCoach`: none exactly when `exists` (`Db.CoachesTeam`) fails, that is, no stored team has the user as coach; otherwise the one team the user coaches |
| ApiStore.Db.NewId | src/services/team.service.ts:4-7 | the store hands out an id used by no user, team, field or match, and the invariant holds |
| ApiAuth.ValidationErrors | src/api/auth.controller.ts:14-31 | the validation messages: none exactly when the email is valid, the username non-empty and the password at least 3 characters; each message present exactly when its check fails |
| ApiAuth.Register | src/api/auth.controller.ts:14-44 | 422 when there is any validation message; 409 when the email is taken; else 201 with one new user |
| ApiTeams.Matches | src/api/team.controller.ts:114-120 | the number of values the callback reads that strictly equal the candidate's email is at most the list length, and is 0 exactly when no value equals it |
| ApiTeams.MatchesPrefix | src/api/team.controller.ts:114-120 | a prefix of the list never has more matches than the whole list |
| ApiTeams.NoEntryMatches | src/services/team.service.ts:9-12 | the team is read without populating its players, so every `player.email` is undefined and the scan matches nothing, whatever the list and the candidate |
| ApiTeams.DuplicateReplies | src/api/team.controller.ts:114-120 | the loop sends one 409 per match until the second reply throws: the result is the smaller of the match count and 2 |
| ApiTeams.Merged | src/api/team.controller.ts:202-207 | the merged team keeps its coach and its players |
| ApiTeams.MergeNothingGiven | src/api/team.controller.ts:202-207 | an update with nothing given leaves the team unchanged |
| ApiTeams.MergeKeepsGender | src/api/team.controller.ts:168-171 | a validated update keeps the team's gender among men, women and mixed |
| ApiTeams.Create | src/api/team.controller.ts:16-63 | 422 for an empty name, city or description or an unknown gender; 400; 409 when the caller already coaches a team; else 201; at most one team per coach |
| ApiTeams.AddPlayer | src/api/team.controller.ts:68-125 | 422, 400, 400, 403 for a non-coach, 404 for an unknown candidate, else 200 with the candidate appended, even when already listed and even when it is the coach |
| ApiTeams.AddPlayerChecked | src/api/team.controller.ts:108-112 | the same chain with 409 for a listed candidate, which leaves the store unchanged; a player list without repeats stays without repeats |
| ApiTeams.Update | src/api/team.controller.ts:164-210 | 422 for a bad id or a gender that is given but unknown, 400, 500, 403 for a non-coach, else 200 with the merged team |
| ApiTeams.Delete | src/api/team.controller.ts:216-248 | 422, 400, 500, 403 for a non-coach, else 200 and the team removed |
| ApiFields.Merged | src/api/field.controller.ts:246-252 | the merged field keeps its owner and its facilities |
| ApiFields.MergeNothingGiven | src/api/field.controller.ts:246-252 | an update with only falsy inputs leaves the field unchanged |
| ApiFields.MergeIdempotent | src/api/field.controller.ts:246-252 | repeating the same update changes nothing more |
| ApiFields.Create | src/api/field.controller.ts:15-66 | 422 for a bad format, empty name, missing location or address, or empty description; 400; else 201 with the caller as owner and no facilities |
| ApiFields.AddFacility | src/api/field.controller.ts:72-115 | 422, 400, 400, 403 for a non-owner, 409 for a listed facility, else 200 and the facility appended |
| ApiFields.RemoveFacility | src/api/field.controller.ts:121-158 | 422, 400, 400, 403 for a non-owner, else 200 with every occurrence removed; removing an absent tag changes nothing |
| ApiFields.Update | src/api/field.controller.ts:198-254 | 422 for a bad format or a location without an address, 400, 500, 403 for a non-owner, else 200 with the merged field |
| ApiFields.Delete | src/api/field.controller.ts:260-292 | 422, 400, 500, 403 for a non-owner, else 200 and the field removed |
| ApiMatches.Merged | src/api/match.controller.ts:152-157 | the merged match keeps its home team; a given value replaces the old one; an absent away team or field keeps the old reference only while it still exists and becomes null otherwise; absent times keep the old ones |
| ApiMatches.MergeNothingGiven | src/api/match.controller.ts:152-157 | an update with nothing given leaves the match unchanged exactly when its away team and field still exist or are already null |
| ApiMatches.Create | src/api/match.controller.ts:17-64 | 422, 400, 404 when the caller coaches no team, else 201 with the caller's team as home team and the rest as given |
| ApiMatches.Get | src/api/match.controller.ts:79-98 | 422, 400 for an unknown match, else 200 with the stored match; nothing changes |
| ApiMatches.Update | src/api/match.controller.ts:104-159 | 422, 400, 500 for an unknown match; then a thrown error when the home team no longer exists (its populated value is null), 403 when another user coaches it, else 200; on 200 the merged match, with deleted away team or field written back as null |
| ApiMatches.Delete | src/api/match.controller.ts:165-197 | 422, 400, 500 for an unknown match; then a thrown error when the home team no longer exists, 403 when another user coaches it, else 200 and the match removed |
| Scenarios.CoachAddsPlayer | src/api/controllers/team.controller.ts:41-129 | register two users, create a team, add a player, re-add them (409) and let a non-coach add a spare player (403); the team lists the player once |
| Scenarios.RegisterTwice | src/api/controllers/auth.controller.ts:22-29 | the second registration of an email answers 409 and only one user is added |
| Scenarios.FacilityRoundTrip | src/api/field.controller.ts:107-156 | add, re-add (409), remove and re-remove a facility: the list ends empty |
| Scenarios.DuplicatePlayerAppended | src/api/team.controller.ts:114-124 | adding one user three times answers 200, 200, 200 and leaves the user listed three times |
| Scenarios.DuplicatePlayerRefused | src/api/team.controller.ts:108-112 | with the intended check, the same requests answer 200, 409, 409 and list the user once |
| Scenarios.ScheduleUnordered | src/api/match.controller.ts:17-64 | a match that ends before it starts, with the same team on both sides, is accepted |
| Scenarios.SecondTeamRefused | src/api/team.controller.ts:45-62 | a coach's second team is refused with 409 and nothing changes |
| Scenarios.AwayTeamNulled | src/api/match.controller.ts:152-157 | after the away team's coach deletes it, the home coach's update without an away team answers 200 and stores a null away team |

## Findings

| source | as written | input that shows it | evidently intended | confidence | as-written member | corrected member |
|---|---|---|---|---|---|---|
| src/api/team.controller.ts:114-124 | the duplicate scan reads `player.email` from an unpopulated player list, so it never matches and the candidate is always appended | a team whose players are `[b]`; the coach adds `b`: 200 and players `[b, b]` | a listed candidate answers 409 and the list is unchanged (the commented-out check at lines 108-112) | high, not executed | ApiTeams.AddPlayer, Scenarios.DuplicatePlayerAppended | ApiTeams.AddPlayerChecked, Scenarios.DuplicatePlayerRefused |

## Left out

- Login, JSON web tokens and the passport strategy are not part of this model. The authenticated caller enters as a user id that may or may not exist.
- Password hashing in the user schema's save hook is not part of this model. The stored password stands for whatever the hook stores.
- The library validators for object ids, ISO 8601 dates, postal codes, numbers and emails are not modelled. Each enters as one boolean parameter (`formatOk`, `emailOk`).
- Dates are plain integers. Match times are stored as given, and nothing orders them, as in the source.
- Response bodies and projections are not modelled; the model returns status codes. Populating is modelled where it changes a decision or the store:
  - the match handlers' populated home team decides the ownership check (`ApiMatches.HomeCoachCheck`);
  - their populated away team and field are written back by an update (`ApiMatches.Merged`);
  - the unpopulated player list makes the add-player scan find nothing (`ApiTeams.NoEntryMatches`).
- `teamService.exists` and `teamService.getByCoach` are called by the controllers but not defined in `src/services/team.service.ts`. They are modelled as store queries: `ApiStore.Db.CoachesTeam` and `ApiStore.Db.TeamOfCoach`.
- The match schema (`src/models/match.schema.ts:14-20`) has no `organizer` path, so the organizer passed at creation is not stored. `ApiMatches.Create` states instead that the caller coaches the home team.
- The schemas' own validation (required, enum and unique paths) is not modelled; only the controllers' checks are.
- A failed write that answers 500 ("Failed to create new ...") is not modelled. The store always succeeds. So are cast errors for malformed ids in the first generation.
- The error middleware in `src/app.ts:28-30` answers with the thrown message. Its status is not modelled; a thrown handler answers `Uncaught`.
- ApiTeams.Update: the source's trailing `team.save()` on the document read before the update is not modelled. It modifies no path and does not write.
- Field `length` and `width` are integers; the source stores any JSON number. The handlers only test them for truthiness (0 is falsy) and store them, so nothing else depends on it.
- Concurrent requests are not modelled; each handler runs atomically on the store.
- The GET list and GET by id routes of teams and fields, the user controllers and the login routes change nothing. They are not part of this model, except `ApiMatches.Get`.
- Routing is not modelled. `src/app.ts:26` mounts only the auth, user, team and field routers; which prefix serves which controller is not part of this model.
