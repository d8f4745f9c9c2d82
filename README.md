# Family-tree backend: a verified model

This project models the request-handling core of a small family-tree web service, a Flask application over SQLite. Every user keeps a private family tree made of people, relationships between them, and life events. A request reaches its data only through a bearer-token session.

The model has these parts:

- **Store.** The five tables (Users, Sessions, People, Relationships, Events) are maps inside one class, `Backend.Store`. Rows are keyed by rowid; sessions are keyed by their token. `Backend.Tables` is a snapshot of all five tables and the next rowids.
- **Handlers.** Each route handler that writes is a method on the store. It runs the source's chain of guards, each answering 400, 401 or 404. It then makes at most one change to one table, and its contract states the whole new state.
- **Queries.** The read-only routes are functions over the tables:
  - `People.ListPeople` and `People.GetPerson`;
  - `Relationships.ListRelationships` and `Relationships.GetRelationship`;
  - `Events.ListEvents` and `Events.GetEvent`.

  Their contracts state which rows appear, that each appears exactly once, and in what order.
- **Gate.** `Backend.Store.Serve` is the `require_auth` decorator in front of every protected route. It resolves the `Authorization` header with `Auth.CurrentUser`. Without a user it answers 401 and changes nothing. With one, it binds the current user and runs the route's handler once.
- **Outcomes.** `Backend.GateOutcome` and the per-blueprint functions (`AuthOutcome`, `UsersOutcome`, `PeopleOutcome`, `RelationshipsOutcome`, `EventsOutcome`) give each route's new tables and answer as a pure function of the old tables. `Serve` and its dispatchers are proved to produce exactly these. The lemmas about whole requests are stated over them.
- **Invariant.** `Backend.Store.Valid` is kept by every handler:
  - ids lie below the table's next rowid;
  - usernames are unique;
  - every session, person and event points at an existing user;
  - a relationship joins two different people of one owner and carries a known kind.
- **Pure helpers.**
  - `Uploads.AllowedFile` is the upload extension allow-list.
  - `Frontend.EscapeHtml` and `Frontend.EscapeJs` are the browser's escaping helpers, each proved against an inverse.
  - The two form submit guards are compared with the server's own checks in `ClientChecks`.

**Modelling conventions**

- **Clock.** Timestamps are integer seconds, passed to each handler as `now`.
- **Sessions.** A session lasts `Schema.SessionLifetime`, which is seven days, hard-coded as login does.
- **Passwords.** `Schema.HashPassword` stands in for SHA-256. It keeps only the property the handlers use: equal digests mean equal passwords.
- **Tokens.** The fresh session token is a parameter of `Login`, with the precondition that no session already uses it.
- **JSON bodies.**
  - Fields read with `data.get(k)` are `Option` values, where `None` means absent or null.
  - Fields read with `data.get(k, '')` are plain strings.
  - Python truthiness is `Common.Present` for strings and `Common.PresentId` for ids.
- **Ordering.** SQLite's `ORDER BY` is modelled as a sort of row ids by a comparator (module `Ordering`). Text compares by code point (`Text.LexLe`). NULL sorts first in ascending order.

Where the code and the prose description of the service differ, the model follows the code:

- An event's `created_by` is never checked against People by the handler.
- Deleting an already deleted person answers 404.
- Login hard-codes seven days rather than reading `SESSION_EXPIRY_DAYS`.
- Reading, updating and deleting one relationship by id does not filter out soft-deleted people.

## Model

| member | source | states |
|---|---|---|
| Text.TrimStartSpec | app/backend/routes/auth_routes.py:14 | the leading-whitespace cut keeps a suffix, removes only whitespace, and stops at the first other character |
| Text.TrimEndSpec | app/backend/routes/auth_routes.py:14 | the trailing-whitespace cut keeps a prefix, removes only whitespace, and stops at the last other character |
| Text.StripSpec | app/backend/routes/auth_routes.py:14 | `strip()` returns the infix of the input left after cutting whitespace from both ends; it neither starts nor ends with whitespace |
| Text.Strip | app/backend/routes/auth_routes.py:14 | `str.strip()`: cut whitespace from the start, then from the end; characterised by `Text.StripSpec` |
| Text.StripEmptyIffBlank | app/backend/routes/events_routes.py:44-46 | the stripped text is empty exactly when every character is whitespace |
| Text.StripIdempotent | app/backend/routes/auth_routes.py:14 | stripping twice is stripping once |
| Text.Lower | app/backend/routes/relationships_routes.py:97 | lowering keeps the length and lowers each character in place |
| Text.LowerIdempotent | app/backend/routes/relationships_routes.py:97 | lowering twice is lowering once |
| Text.LexLeTotal | app/backend/routes/people_routes.py:24 | any two texts are comparable in the collation ORDER BY uses |
| Text.LexLeAntisymmetric | app/backend/routes/people_routes.py:24 | texts that compare both ways are equal |
| Text.LexLeTransitive | app/backend/routes/people_routes.py:24 | the text collation is transitive |
| Uploads.NoDotRejected | app/backend/utils/uploads.py:8 | a file name without a dot is refused |
| Uploads.AllowedFile | app/backend/utils/uploads.py:6-10 | `allowed_file`: a name with a dot whose text after the last dot, lowered, is png, jpg or jpeg; characterised by `Uploads.AllowedFileByExtension` |
| Uploads.AllowedFileByExtension | app/backend/utils/uploads.py:4-10 | for `base.ext` with no dot in `ext`, the name is accepted exactly when the lowered `ext` is png, jpg or jpeg |
| Uploads.UpperCaseAccepted | app/backend/utils/uploads.py:9 | `A.PNG` is accepted: the comparison ignores case |
| Uploads.DoubleExtensionRejected | app/backend/utils/uploads.py:9 | a name such as `a.png.exe` is refused when its last extension is not allowed, even after an allowed one: only the text after the last dot counts |
| Uploads.TrailingDotRejected | app/backend/utils/uploads.py:9 | `archive.` is refused: its extension is empty |
| Uploads.DecimalRoundTrip | app/backend/routes/users.py:23 | the user id written into the upload directory reads back as the same number |
| Uploads.JoinPath | app/backend/routes/users.py:27 | `os.path.join` puts one `/` between a directory without a trailing slash and a relative name, and an absolute name replaces the directory |
| Uploads.PhotoPath | app/backend/routes/users.py:22-27 | the stored path is `uploads/users/` + the caller's id + `/` + the sanitised name |
| Frontend.EscapeHtmlText | app/frontend/app.js:995-1003 | the escaped text contains no raw `<`, `>`, `"` or `'`, is never shorter than the input, and text without any of the five special characters is unchanged |
| Frontend.EscapeHtml | app/frontend/app.js:993-1004 | a missing value escapes to the empty string, and a present one is escaped whole (the early return on the empty string agrees) |
| Frontend.UnescapeEntity | app/frontend/app.js:998-1002 | each of the five entities decodes back to its character |
| Frontend.EscapeHtmlRoundTrip | app/frontend/app.js:995-1003 | decoding the escaped text gives the original back, so every other character is copied unchanged and in order |
| Frontend.EscapeJsText | app/frontend/app.js:1008 | every single quote in the output is preceded by a backslash, the output never starts with a quote, and text without quotes is unchanged |
| Frontend.EscapeJs | app/frontend/app.js:1006-1009 | a missing value escapes to the empty string, and a present one is escaped whole |
| Frontend.EscapeJsRoundTrip | app/frontend/app.js:1008 | removing the inserted backslashes gives the original back |
| Ordering.SortBy | app/backend/routes/people_routes.py:24 | the sorted ids are in comparator order and are a permutation of the input |
| Ordering.Enumerate | app/backend/routes/people_routes.py:28 | the rows a query selects are listed once each: the list has the same elements as the selected set |
| Ordering.ListsSetOnce | app/backend/routes/people_routes.py:28-29 | a list with the elements of a set contains exactly that set and repeats no element |
| Common.StatusOf | app/backend/auth_utils.py:48 | each kind of refusal has its own status code: 400 for a bad request, 401 for missing or invalid authentication, 404 for a row not found |
| Schema.HashInjective | app/backend/auth_utils.py:8-10 | equal password digests mean equal passwords |
| Schema.DisplayName | app/backend/routes/relationships_routes.py:26-28 | `given_name \|\| ' ' \|\| family_name` is NULL exactly when either name is NULL |
| Auth.BearerToken | app/backend/auth_utils.py:18-22 | a token is found exactly when the header starts with the case-sensitive `Bearer `, and the token is the rest of the header |
| Auth.BearerRoundTrip | app/backend/auth_utils.py:22 | the header `Bearer ` + t yields the token t |
| Auth.CurrentUser | app/backend/auth_utils.py:16-40 | a user is returned exactly when a session with that token exists, expires strictly after now, and belongs to an active user; the result is that user's id, username, email and full name; every failure is None |
| Auth.Authenticates | app/backend/auth_utils.py:26-35 | the session query's WHERE: the token has a session, it expires strictly after now, and its user exists and is active; `Auth.CurrentUser` answers exactly when it holds |
| Auth.SessionValidUntilExpiry | app/backend/auth_utils.py:32 | a session authenticates before its expiry time and no longer at or after it |
| Auth.UnknownTokenRejected | app/backend/auth_utils.py:26-38 | a token with no session row authenticates no one |
| Auth.InactiveUserLockedOut | app/backend/auth_utils.py:33 | no header resolves to a deactivated user |
| People.NullsFirstIsTotalOrder | app/backend/routes/people_routes.py:24 | name comparison with NULL first is total, antisymmetric and transitive |
| People.NameLeIsTotalPreorder | app/backend/routes/people_routes.py:24 | ordering by family name then given name is a total preorder |
| People.PersonOrderIsTotalPreorder | app/backend/routes/people_routes.py:24 | the same order on row ids, with a missing row as all NULLs, is a total preorder, so it can drive the sort |
| People.ListedPeopleIds | app/backend/routes/people_routes.py:17-26 | the listed ids are exactly the caller's live people, each once, in name order |
| People.ListPeople | app/backend/routes/people_routes.py:10-32 | get_all_people lists every live person of the caller exactly once and nothing else, ordered by family name then given name |
| People.GetPerson | app/backend/routes/people_routes.py:36-58 | a person is returned exactly when the row exists, is the caller's and is not deleted; every other case is one and the same 404 |
| People.NamesGiven | app/backend/routes/people_routes.py:66 | create_person's guard: both the given and the family name are present and non-empty |
| People.DeletedPersonHidden | app/backend/routes/people_routes.py:23-49 | a soft-deleted person is missing from both the list and the single read |
| Relationships.NormalizeType | app/backend/routes/relationships_routes.py:97 | the normalised kind has no surrounding whitespace and no capital letter; an absent kind becomes empty |
| Relationships.NormalizeKeepsCanonical | app/backend/routes/relationships_routes.py:97 | a kind already trimmed and lower-case is kept as given |
| Relationships.NormalizeIdempotent | app/backend/routes/relationships_routes.py:97 | normalising twice is normalising once |
| Relationships.RelationTypesAccepted | app/backend/config.py:17-20 | each of the six relation kinds passes the check exactly as written |
| Relationships.CountLiveIsTwo | app/backend/routes/relationships_routes.py:112-124 | for two different ids, the count is 2 exactly when both are live people of the caller |
| Relationships.NewestFirstIsTotalPreorder | app/backend/routes/relationships_routes.py:42 | `created_at DESC` on row ids is a total preorder |
| Relationships.CheckRelationship | app/backend/routes/relationships_routes.py:95-124 | missing people, then self-relationship, then an unknown non-empty kind, then people not both live and the caller's, each answer 400 in that order; the self-relationship and not-owned answers hold exactly when their conditions do; success yields the normalised kind |
| Relationships.ListedIds | app/backend/routes/relationships_routes.py:35-42 | the listed ids are exactly the relationships whose two people are live and the caller's, each once, newest first |
| Relationships.ListRelationships | app/backend/routes/relationships_routes.py:14-50 | get_relationships lists each relationship whose two people are live and the caller's exactly once, with both display names, newest first |
| Relationships.GetRelationship | app/backend/routes/relationships_routes.py:52-87 | a relationship is returned exactly when both its people are the caller's, deleted or not; otherwise 404 |
| Relationships.Visible | app/backend/routes/relationships_routes.py:73-78 | the by-id WHERE of read, repeated for update (lines 160-169) and delete (lines 224-233): the row exists and both its people belong to the caller, deleted or not |
| Relationships.DeletedEndpointStillReadable | app/backend/routes/relationships_routes.py:40-41 | once either person is soft-deleted, the relationship leaves the list but is still returned by id |
| Relationships.ListedIsVisible | app/backend/routes/relationships_routes.py:76-78 | every listed relationship is also readable by id |
| Events.CheckEvent | app/backend/routes/events_routes.py:43-47 | 400 exactly when the person id is missing or zero or the stripped title is empty; success yields the stripped title and the person id |
| Events.BlankTitleRejected | app/backend/routes/events_routes.py:44-47 | a title made only of whitespace is refused |
| Events.EventBeforeIsTotalOrder | app/backend/routes/events_routes.py:29 | dated events first, latest date first, then highest id first, is a total order |
| Events.EventOrderIsTotalPreorder | app/backend/routes/events_routes.py:29 | the same order on row ids is a total preorder, so it can drive the sort |
| Events.OwnedIds | app/backend/routes/events_routes.py:28-29 | the listed ids are exactly the caller's events, each once, in that order |
| Events.ListEvents | app/backend/routes/events_routes.py:9-35 | list_events lists each of the caller's events exactly once, whether or not its person is deleted, in that order |
| Events.ListEventsStrict | app/backend/routes/events_routes.py:29 | the listing has no ties: a later row never precedes an earlier one |
| Events.GetEvent | app/backend/routes/events_routes.py:86-115 | an event is returned exactly when the id and the owner both match; otherwise 404 |
| Events.OwnedEvent | app/backend/routes/events_routes.py:105 | `WHERE id = ? AND user_id = ?`, as also at lines 144 and 174: the event exists and is the caller's |
| Events.ForeignPersonNameShown | app/backend/routes/events_routes.py:102-104 | the person-name join ignores owner and deletion, so an event can show another user's or a deleted person's name |
| Backend.AssembleUpdates | app/backend/routes/auth_routes.py:147-165 | refused exactly when `Backend.MeRefusal` names an error, with that error; otherwise the SET list is non-empty and holds the stripped email, the stripped full name and the password digest for exactly the fields given, in that order |
| Backend.MeRefusal | app/backend/routes/auth_routes.py:158-165 | PUT /me is refused for a non-empty password shorter than six, and otherwise when no email, no full name and no non-empty password is given; those are the only two refusals |
| Backend.ApplyAssignments | app/backend/routes/auth_routes.py:170-171 | the UPDATE applies the SET list in order and never touches username, active flag or creation time |
| Backend.AssignAllFields | app/backend/routes/auth_routes.py:150-171 | the assembled SET list amounts to replacing exactly the given fields |
| Backend.Store.Register | app/backend/routes/auth_routes.py:9-51 | missing credentials, a short password and a taken username each answer 400 and insert nothing; the request succeeds exactly when none of the three applies, and then exactly one active user is inserted with the stripped name, the password digest and the stripped email and full name, and it can log in |
| Backend.Store.Login | app/backend/routes/auth_routes.py:53-108 | missing credentials answer 400 and no active user with that name and digest answers 401, both without a session; the login succeeds exactly when neither applies, and then exactly one session of seven days is added for that user, and its token authenticates |
| Backend.Store.Logout | app/backend/routes/auth_routes.py:110-126 | only the session with the presented token is deleted; an empty or absent token changes nothing |
| Backend.Store.UpdateMe | app/backend/routes/auth_routes.py:134-183 | refused exactly when `Backend.MeRefusal` names an error, with that error and no change; otherwise the caller's row becomes `UpdatedUser` of the old row (the given fields stripped or hashed, and the update time) and the answer is the re-read user |
| Backend.Store.WriteMe | app/backend/routes/auth_routes.py:167-178 | running the assembled UPDATE on the caller's row gives `UpdatedUser` of that row, keeps the invariant, and answers the re-read user |
| Backend.Store.CreatePerson | app/backend/routes/people_routes.py:60-102 | 400 without both names; otherwise one live row of the caller is inserted under a new id and reads back with the given fields |
| Backend.Store.UpdatePerson | app/backend/routes/people_routes.py:104-158 | 404 unless the row is live and the caller's; otherwise all nine fields are replaced and the update time set, with owner, creation time and deletion flag kept |
| Backend.Store.DeletePerson | app/backend/routes/people_routes.py:160-191 | 404 unless the row is live and the caller's; otherwise only its deletion flag and update time change; afterwards the read answers 404 |
| Backend.Store.CreateRelationship | app/backend/routes/relationships_routes.py:89-142 | refused exactly as the checks refuse, inserting nothing; otherwise one new row with the normalised kind, which then appears in the list |
| Backend.Store.UpdateRelationship | app/backend/routes/relationships_routes.py:144-215 | 404 before any look at the body; then the create checks; then every column is overwritten and the creation time kept |
| Backend.Store.DeleteRelationship | app/backend/routes/relationships_routes.py:217-243 | 404 unless both people are the caller's; otherwise exactly that row is removed |
| Backend.Store.CreateEvent | app/backend/routes/events_routes.py:38-83 | 400 and no insert on a missing person or blank title; otherwise one row of the caller with the stripped title and the person as given, never checked against People |
| Backend.Store.UpdateEvent | app/backend/routes/events_routes.py:118-163 | the 400 check comes before the 404; only the matching row of the caller changes, keeping owner and creation time |
| Backend.Store.DeleteEvent | app/backend/routes/events_routes.py:166-182 | 404 unless the id is one of the caller's events; otherwise exactly that row is removed, and afterwards the id is gone |
| Backend.Store.UploadProfilePhoto | app/backend/routes/users.py:12-48 | 400 with no change when the file is missing or refused by the allow-list; otherwise only the caller's photo path and update time change |
| Backend.Store.Deactivate | app/backend/routes/users.py:50-69 | only the caller's active flag and update time change |
| Backend.Store.Serve | app/backend/auth_utils.py:42-51 | without a resolved user the answer is 401 and no table changes; otherwise the current user is the resolved one, the new tables and the answer are exactly `GateOutcome` of the old tables for that route, and the answer is never 401 |
| Backend.Store.ServeAuth | app/backend/routes/auth_routes.py:110-183 | logout, GET /me and PUT /me leave the tables and answer exactly as `AuthOutcome` says: logout drops only the presented token's session, /me answers the current user, PUT /me refuses or rewrites the caller's row |
| Backend.Store.ServeUsers | app/backend/routes/users.py:12-69 | the photo upload and deactivation leave the tables and answer exactly as `UsersOutcome` says, touching only the caller's row |
| Backend.Store.ServePeople | app/backend/routes/people_routes.py:10-191 | each people route leaves the tables and answers exactly as `PeopleOutcome` says: the GETs answer the listing or the single read and change nothing; the writes change only People and its next rowid |
| Backend.Store.ServeRelationships | app/backend/routes/relationships_routes.py:8-243 | each relationship route leaves the tables and answers exactly as `RelationshipsOutcome` says: /types answers the six kinds, the GETs read, the writes change only Relationships and its next rowid |
| Backend.Store.ServeEvents | app/backend/routes/events_routes.py:9-182 | each event route leaves the tables and answers exactly as `EventsOutcome` says: the GETs read, the writes change only Events and its next rowid |
| Backend.DeactivatedCannotLogin | app/backend/routes/auth_routes.py:69-79 | after deactivation no password logs the user in |
| Backend.LogoutRevokesOnlyThatToken | app/backend/routes/auth_routes.py:115-121 | after logout the token resolves to no one, and every other token resolves as before |
| Backend.DeactivationEndsSessions | app/backend/routes/users.py:57-63 | deactivation deletes no session, yet none of the user's sessions authenticates afterwards |
| Backend.GateNeverUnauthorized | app/backend/auth_utils.py:42-51 | past the gate every refusal is a 400 or a 404, never a 401 |
| Backend.ReadsAndRefusalsChangeNothing | app/backend/routes/people_routes.py:10-58 | every GET changes no table, and every refused request of any route changes no table |
| Backend.OtherUsersPeopleUntouched | app/backend/routes/people_routes.py:104-191 | no request changes or removes a person of another user |
| Backend.OtherUsersEventsUntouched | app/backend/routes/events_routes.py:118-182 | no request changes or removes an event of another user |
| Backend.OtherAccountsUntouched | app/backend/routes/users.py:12-69 | no request changes another user's account row |
| Backend.CreatedPersonListed | app/backend/routes/people_routes.py:60-102 | POST /people answers 201 exactly when both names are given; the new id then reads back with the given fields and is in the caller's listing |
| Backend.DeletedPersonGone | app/backend/routes/people_routes.py:160-191 | DELETE /people/<id> succeeds exactly when the person is live and the caller's; afterwards it is neither read nor listed |
| Backend.CreatedRelationshipListed | app/backend/routes/relationships_routes.py:89-142 | POST /relationships answers 201 exactly when the checks pass; the new row is then listed and readable by id |
| Backend.DeletedEventGone | app/backend/routes/events_routes.py:166-182 | DELETE /events/<id> succeeds exactly when the event is the caller's; afterwards it is not found |
| Backend.LogoutEndsPresentedSession | app/backend/routes/auth_routes.py:115-121 | after logout the header that was presented authenticates no one, at any later time |
| Backend.DeactivationLocksOut | app/backend/routes/users.py:57-63 | after deactivation no header authenticates the user, at any later time |
| Backend.UpdateListGivesUpdatedUser | app/backend/routes/auth_routes.py:150-171 | applying the assembled SET list and the update time amounts to `UpdatedUser` |
| ClientChecks.ServerAcceptedEventPassesForm | app/frontend/app.js:811-822 | whatever event the server accepts, the form would have sent |
| ClientChecks.BlankTitlePassesFormOnly | app/frontend/app.js:811-822 | a title of blanks passes the form but is refused by the server |
| ClientChecks.RelationshipFormNeverMissingPeople | app/frontend/app.js:590-600 | a relationship the form sends never draws "both people are required" |
| Frontend.RelationshipFormSubmits | app/frontend/app.js:597 | onRelationshipFormSubmit sends only with both people chosen and a kind chosen |
| Frontend.EventFormSubmits | app/frontend/app.js:819 | onEventFormSubmit sends only with a person chosen and a non-empty title |
| ClientChecks.FormSendsOnlyKnownKinds | app/frontend/app.js:537-547 | a kind the form submits from the select filled with `RELATION_TYPES` is one of the six kinds, and the server keeps it as sent |
| ClientChecks.UntypedRelationshipOnlyFromOtherClients | app/frontend/app.js:590-600 | the server accepts a relationship without a kind, yet whatever the kind select (filled at lines 537-547) offers and the form submits is one of the six kinds, never the empty placeholder |

## Left out

- SHA-256 (`hash_password`) and `secrets.token_urlsafe`: opaque library calls. The digest is an injective stand-in, and the token is a parameter with a freshness precondition.
- `secure_filename`, `os.makedirs` and `file.save`: filesystem and library calls. The sanitised name is a parameter of `UploadProfilePhoto`, and no file is written.
- The generic exception-to-500 paths: database errors and non-string JSON values, such as a number where `.strip()` is called.
- `sqlite3.IntegrityError` answers ("Username or email already exists", "Email already in use"). They depend on constraints in migration files that are not part of this model, so the model has no uniqueness constraint on email.
- Python's `str.lower()` beyond ASCII: `Text.Lower` folds only A-Z. This is exact for both uses. A lowered kind is stored only if it is empty or one of six ASCII words. The extension test compares against ASCII words only.
- The order of rows that tie in an `ORDER BY`. People with equal names, and relationships created at the same time, may come in any order. The contracts promise the sort order and that each row appears once.
- Auth.CurrentUser: a database failure inside the lookup is not modelled. The model's lookup cannot fail, and every miss already gives None.
- Timestamps are integer seconds, not ISO-8601 strings. The strict comparison `expires_at > now` is kept.
- `SESSION_EXPIRY_DAYS` and `MIN_PASSWORD_LENGTH` in config.py are not read by the code, which hard-codes 7 and 6. The model uses 7 days and 6 characters.
- `place_lat` and `place_lng` are carried as reals and never computed with.
- app/backend/database.py (connection setup and migrations), misc_routes.py (health probe and static files), and main.py and the package `__init__` files (Flask wiring) are not part of this model.
- app.js is not modelled beyond `escapeHtml`, `escapeJs` and the two submit guards; the rest is DOM and fetch code. `Frontend.EscapeHtml` and `Frontend.EscapeJs` take strings or absence, not arbitrary JavaScript values passed through `String()`.
- Row ids are never reused: a deleted row's id is not handed out again. The table definitions are in migration files that are not part of this model; with a plain INTEGER PRIMARY KEY, SQLite would reuse the largest id plus one after the newest row is deleted.
- Foreign-key constraints: app/backend/database.py:102 turns them on, but their definitions are in the migrations. The model has no such check, so an insert that SQLite would refuse with an IntegrityError, such as an event whose `created_by` names no person, succeeds in the model.
- Concurrent requests: each handler runs alone, as one SQLite transaction.
- Backend.Store.UpdateMe: answers with the user re-read after the update. The source would answer `null` if that row were missing, but the invariant rules that out.
