/**
 * The five tables as one store, and each route handler as a method on it:
 * a chain of guards, each answering 400, 401 or 404, and then at most one
 * change to one table. Serve is the require_auth gate in front of every
 * protected route.
 */
module Backend {
  import opened Common
  import opened Text
  import opened Schema
  import opened Auth
  import P = People
  import R = Relationships
  import E = Events
  import opened Uploads

  /** `SELECT id FROM Users WHERE username = ?` finds a row. */
  predicate UsernameInUse(users: map<int, User>, name: string) {
    exists id :: id in users && users[id].username == name
  }

  /** No two rows share a username: register refuses a name already in use. */
  predicate UniqueUsernames(users: map<int, User>) {
    forall a, b :: a in users && b in users && users[a].username == users[b].username ==> a == b
  }

  /** The row login selects: this username, this password's digest, still active. */
  predicate MatchesLogin(users: map<int, User>, id: int, name: string, password: string) {
    id in users && users[id].username == name && users[id].passwordHash == HashPassword(password) && users[id].isActive
  }

  /** `(data.get(k) or '').strip()`: an absent field reads as the empty string. */
  function StripOrEmpty(s: Option<string>): string {
    if s.Some? then Strip(s.value) else ""
  }

  /** One `column = ?` of the UPDATE that update_current_user assembles. */
  datatype Assignment =
    | SetEmail(email: string)
    | SetFullName(fullName: string)
    | SetPasswordHash(digest: Digest)

  function Assign(u: User, a: Assignment): User {
    match a
    case SetEmail(e) => u.(email := e)
    case SetFullName(n) => u.(fullName := n)
    case SetPasswordHash(d) => u.(passwordHash := d)
  }

  /** The assignments applied left to right, as the SET list runs. */
  function AssignAll(u: User, updates: seq<Assignment>): User {
    if updates == [] then u else Assign(AssignAll(u, updates[..|updates| - 1]), updates[|updates| - 1])
  }

  /**
   * The first half of update_current_user: the SET list, built by appending
   * as the fields are examined; a short new password stops it.
   */
  method AssembleUpdates(email: Option<string>, fullName: Option<string>, password: Option<string>)
    returns (r: Result<seq<Assignment>>)
    ensures r.Err? <==> MeRefusal(email, fullName, password).Some?
    ensures r.Err? ==> r.error == MeRefusal(email, fullName, password).value
    ensures r.Ok? ==> r.value == UpdateList(email, fullName, password) && r.value != []
  {
    var updates: seq<Assignment> := [];
    if email.Some? {
      updates := updates + [SetEmail(Strip(email.value))];
    }
    if fullName.Some? {
      updates := updates + [SetFullName(Strip(fullName.value))];
    }
    if Present(password) {
      if |password.value| < MinPasswordLength {
        return Err(BadRequest(PasswordTooShort));
      }
      updates := updates + [SetPasswordHash(HashPassword(password.value))];
    }
    if updates == [] {
      return Err(BadRequest(NoFieldsToUpdate));
    }
    r := Ok(updates);
  }

  /**
   * Why update_current_user refuses a body: a non-empty new password
   * shorter than six characters, or none of the three fields given.
   */
  function MeRefusal(email: Option<string>, fullName: Option<string>, password: Option<string>): (e: Option<Error>)
    ensures e == Some(BadRequest(PasswordTooShort)) <==> Present(password) && |password.value| < MinPasswordLength
    ensures e == Some(BadRequest(NoFieldsToUpdate)) <==> email.None? && fullName.None? && !Present(password)
    ensures e.Some? ==> e.value in {BadRequest(PasswordTooShort), BadRequest(NoFieldsToUpdate)}
  {
    if Present(password) && |password.value| < MinPasswordLength then Some(BadRequest(PasswordTooShort))
    else if email.None? && fullName.None? && !Present(password) then Some(BadRequest(NoFieldsToUpdate))
    else None
  }

  /** The UPDATE itself: the assignments of the SET list, one after another. */
  method ApplyAssignments(u: User, updates: seq<Assignment>) returns (v: User)
    ensures v == AssignAll(u, updates)
    ensures v.username == u.username && v.isActive == u.isActive && v.createdAt == u.createdAt
  {
    v := u;
    var i := 0;
    while i < |updates|
      invariant 0 <= i <= |updates|
      invariant v == AssignAll(u, updates[..i])
      invariant v.username == u.username && v.isActive == u.isActive && v.createdAt == u.createdAt
    {
      assert updates[..i + 1][..i] == updates[..i];
      v := Assign(v, updates[i]);
      i := i + 1;
    }
    assert updates[..i] == updates;
  }

  /**
   * The row update_current_user leaves: email and full name stripped when
   * given, the password's digest when one is given, the time of the change.
   */
  function UpdatedUser(u: User, email: Option<string>, fullName: Option<string>, password: Option<string>, now: Time): User {
    u.(email := if email.Some? then Strip(email.value) else u.email,
       fullName := if fullName.Some? then Strip(fullName.value) else u.fullName,
       passwordHash := if Present(password) then HashPassword(password.value) else u.passwordHash,
       updatedAt := now)
  }

  /** The protected routes of each blueprint, with their path parameters and JSON bodies. */
  datatype AuthRoute =
    | PostLogout
    | GetMe
    | PutMe(email: Option<string>, fullName: Option<string>, password: Option<string>)

  datatype UsersRoute =
    | PostProfilePhoto(filename: Option<string>, savedName: string)
    | PostDeactivate

  datatype PeopleRoute =
    | GetPeople
    | GetPersonAt(personId: int)
    | PostPeople(fields: PersonFields)
    | PutPersonAt(personId: int, fields: PersonFields)
    | DeletePersonAt(personId: int)

  datatype RelationshipsRoute =
    | GetRelationshipTypes
    | GetRelationships
    | GetRelationshipAt(relId: int)
    | PostRelationships(relationship: R.RelationshipInput)
    | PutRelationshipAt(relId: int, relationship: R.RelationshipInput)
    | DeleteRelationshipAt(relId: int)

  datatype EventsRoute =
    | GetEvents
    | GetEventAt(eventId: int)
    | PostEvents(event: E.EventInput)
    | PutEventAt(eventId: int, event: E.EventInput)
    | DeleteEventAt(eventId: int)

  /** A request to a protected route, by blueprint. */
  datatype Request =
    | ToAuth(auth: AuthRoute)
    | ToUsers(users: UsersRoute)
    | ToPeople(people: PeopleRoute)
    | ToRelationships(relationships: RelationshipsRoute)
    | ToEvents(events: EventsRoute)

  /** The body of a successful answer. */
  datatype Payload =
    | Done
    | Created(id: int)
    | UserData(user: UserInfo)
    | PhotoData(path: string)
    | PersonData(person: PersonView)
    | PeopleData(people: seq<PersonView>)
    | TypesData(types: seq<string>)
    | RelationshipData(relationship: RelationshipView)
    | RelationshipsData(relationships: seq<RelationshipView>)
    | EventData(event: EventView)
    | EventsData(events: seq<EventView>)

  /** The contents of the five tables and their next rowids, as one value. */
  datatype Tables = Tables(
    users: map<int, User>,
    sessions: map<string, Session>,
    people: map<int, Person>,
    relationships: map<int, Relationship>,
    events: map<int, Event>,
    nextUserId: int,
    nextPersonId: int,
    nextRelId: int,
    nextEventId: int)

  /**
   * What a route of auth_bp leaves in the tables and answers, for the user
   * `me` the gate found: logout drops the presented session, /me reads the
   * user, and PUT /me rewrites the given columns of the user's row.
   */
  function AuthOutcome(t: Tables, me: UserInfo, header: Option<string>, now: Time, route: AuthRoute): (Tables, Result<Payload>)
    requires me.id in t.users
  {
    match route
    case PostLogout =>
      var token := BearerToken(header);
      (if token.Some? && token.value != "" then t.(sessions := t.sessions - {token.value}) else t, Ok(Done))
    case GetMe =>
      (t, Ok(UserData(me)))
    case PutMe(email, fullName, password) =>
      var refusal := MeRefusal(email, fullName, password);
      if refusal.Some? then (t, Err(refusal.value))
      else
        var v := UpdatedUser(t.users[me.id], email, fullName, password, now);
        (t.(users := t.users[me.id := v]), Ok(UserData(InfoOf(me.id, v))))
  }

  /** users_bp: the photo of an allowed file name, or the account switched off. */
  function UsersOutcome(t: Tables, caller: nat, now: Time, route: UsersRoute): (Tables, Result<Payload>)
    requires caller in t.users
  {
    match route
    case PostProfilePhoto(filename, savedName) =>
      if filename.None? || !AllowedFile(filename.value) then (t, Err(BadRequest(InvalidFile)))
      else
        var path := PhotoPath(caller, savedName);
        (t.(users := t.users[caller := t.users[caller].(profilePhoto := Some(path), updatedAt := now)]), Ok(PhotoData(path)))
    case PostDeactivate =>
      (t.(users := t.users[caller := t.users[caller].(isActive := false, updatedAt := now)]), Ok(Done))
  }

  /** people_bp: reads of the caller's live people, an insert, an overwrite, a soft delete. */
  function PeopleOutcome(t: Tables, caller: int, now: Time, route: PeopleRoute): (Tables, Result<Payload>) {
    match route
    case GetPeople =>
      (t, Ok(PeopleData(P.ListPeople(t.people, caller))))
    case GetPersonAt(id) =>
      var found := P.GetPerson(t.people, caller, id);
      (t, if found.Ok? then Ok(PersonData(found.value)) else Err(found.error))
    case PostPeople(fields) =>
      if !P.NamesGiven(fields) then (t, Err(BadRequest(MissingNames)))
      else
        (t.(people := t.people[t.nextPersonId := Person(fields, caller, now, now, false)], nextPersonId := t.nextPersonId + 1),
         Ok(Created(t.nextPersonId)))
    case PutPersonAt(id, fields) =>
      if !LivePerson(t.people, caller, id) then (t, Err(NotFound))
      else (t.(people := t.people[id := t.people[id].(fields := fields, updatedAt := now)]), Ok(Done))
    case DeletePersonAt(id) =>
      if !LivePerson(t.people, caller, id) then (t, Err(NotFound))
      else (t.(people := t.people[id := t.people[id].(isDeleted := true, updatedAt := now)]), Ok(Done))
  }

  /** relationships_bp: the kinds, the reads, and the checked insert, overwrite and delete. */
  function RelationshipsOutcome(t: Tables, caller: int, now: Time, route: RelationshipsRoute): (Tables, Result<Payload>) {
    match route
    case GetRelationshipTypes =>
      (t, Ok(TypesData(RelationTypes)))
    case GetRelationships =>
      (t, Ok(RelationshipsData(R.ListRelationships(t.people, t.relationships, caller))))
    case GetRelationshipAt(id) =>
      var found := R.GetRelationship(t.people, t.relationships, caller, id);
      (t, if found.Ok? then Ok(RelationshipData(found.value)) else Err(found.error))
    case PostRelationships(input) =>
      var check := R.CheckRelationship(t.people, caller, input);
      if check.Err? then (t, Err(check.error))
      else
        var row := Relationship(input.person1.value, input.person2.value, check.value,
                                input.details, input.startDate, input.endDate, now, now);
        (t.(relationships := t.relationships[t.nextRelId := row], nextRelId := t.nextRelId + 1), Ok(Created(t.nextRelId)))
    case PutRelationshipAt(id, input) =>
      if !R.Visible(t.people, t.relationships, caller, id) then (t, Err(NotFound))
      else
        var check := R.CheckRelationship(t.people, caller, input);
        if check.Err? then (t, Err(check.error))
        else
          var row := Relationship(input.person1.value, input.person2.value, check.value,
                                  input.details, input.startDate, input.endDate, t.relationships[id].createdAt, now);
          (t.(relationships := t.relationships[id := row]), Ok(Done))
    case DeleteRelationshipAt(id) =>
      if !R.Visible(t.people, t.relationships, caller, id) then (t, Err(NotFound))
      else (t.(relationships := t.relationships - {id}), Ok(Done))
  }

  /** events_bp: the caller's events read, inserted, overwritten and deleted. */
  function EventsOutcome(t: Tables, caller: int, now: Time, route: EventsRoute): (Tables, Result<Payload>) {
    match route
    case GetEvents =>
      (t, Ok(EventsData(E.ListEvents(t.people, t.events, caller))))
    case GetEventAt(id) =>
      var found := E.GetEvent(t.people, t.events, caller, id);
      (t, if found.Ok? then Ok(EventData(found.value)) else Err(found.error))
    case PostEvents(input) =>
      var check := E.CheckEvent(input);
      if check.Err? then (t, Err(check.error))
      else
        (t.(events := t.events[t.nextEventId := E.NewEvent(input, check.value.0, check.value.1, caller, now)],
            nextEventId := t.nextEventId + 1),
         Ok(Created(t.nextEventId)))
    case PutEventAt(id, input) =>
      var check := E.CheckEvent(input);
      if check.Err? then (t, Err(check.error))
      else if !E.OwnedEvent(t.events, caller, id) then (t, Err(NotFound))
      else (t.(events := t.events[id := E.UpdatedEvent(t.events[id], input, check.value.0, check.value.1, now)]), Ok(Done))
    case DeleteEventAt(id) =>
      if !E.OwnedEvent(t.events, caller, id) then (t, Err(NotFound))
      else (t.(events := t.events - {id}), Ok(Done))
  }

  /** What a protected request does once the gate has found the user `me`. */
  function GateOutcome(t: Tables, me: UserInfo, header: Option<string>, now: Time, req: Request): (Tables, Result<Payload>)
    requires me.id in t.users && 0 < me.id
  {
    match req
    case ToAuth(route) => AuthOutcome(t, me, header, now, route)
    case ToUsers(route) => UsersOutcome(t, me.id, now, route)
    case ToPeople(route) => PeopleOutcome(t, me.id, now, route)
    case ToRelationships(route) => RelationshipsOutcome(t, me.id, now, route)
    case ToEvents(route) => EventsOutcome(t, me.id, now, route)
  }

  class Store {
    var users: map<int, User>
    var sessions: map<string, Session>
    var people: map<int, Person>
    var relationships: map<int, Relationship>
    var events: map<int, Event>
    /** The next rowid of each table; a deleted row's id is not handed out again. */
    var nextUserId: int
    var nextPersonId: int
    var nextRelId: int
    var nextEventId: int
    /** g.current_user: set by the gate for the handler it runs. */
    var current: Option<UserInfo>

    /** Row ids below the next rowid; usernames unique. */
    ghost predicate UsersValid()
      reads this`users, this`nextUserId
    {
      && 1 <= nextUserId
      && (forall id :: id in users ==> 0 < id < nextUserId)
      && UniqueUsernames(users)
    }

    /** Every session belongs to a user row; no session has the empty token. */
    ghost predicate SessionsValid()
      reads this`sessions, this`users
    {
      && "" !in sessions
      && (forall t :: t in sessions ==> sessions[t].userId in users)
    }

    ghost predicate PeopleValid()
      reads this`people, this`nextPersonId, this`users
    {
      && 1 <= nextPersonId
      && (forall id :: id in people ==> 0 < id < nextPersonId && people[id].owner in users)
    }

    /** A relationship joins two different people of one owner, with a known kind. */
    ghost predicate RelationshipsValid()
      reads this`relationships, this`nextRelId, this`people
    {
      && 1 <= nextRelId
      && (forall id :: id in relationships ==>
            && 0 < id < nextRelId
            && relationships[id].person1 != relationships[id].person2
            && relationships[id].person1 in people
            && relationships[id].person2 in people
            && people[relationships[id].person1].owner == people[relationships[id].person2].owner
            && R.KnownType(relationships[id].relType))
    }

    ghost predicate EventsValid()
      reads this`events, this`nextEventId, this`users
    {
      && 1 <= nextEventId
      && (forall id :: id in events ==> 0 < id < nextEventId && events[id].owner in users)
    }

    /** What every handler keeps true of the tables. */
    ghost predicate Valid()
      reads this
    {
      && UsersValid() && SessionsValid() && PeopleValid() && RelationshipsValid() && EventsValid()
      && (current.Some? ==> current.value.id in users)
    }

    /** A store with empty tables. */
    constructor ()
      ensures Valid()
      ensures users == map[] && sessions == map[] && people == map[] && relationships == map[] && events == map[]
      ensures current == None
    {
      users, sessions, people, relationships, events := map[], map[], map[], map[], map[];
      nextUserId, nextPersonId, nextRelId, nextEventId := 1, 1, 1, 1;
      current := None;
    }

    /** The tables as one value. */
    function Snapshot(): Tables
      reads this
    {
      Tables(users, sessions, people, relationships, events, nextUserId, nextPersonId, nextRelId, nextEventId)
    }

    /** g.current_user['id'] */
    function Caller(): int
      reads this`current
      requires current.Some?
    {
      current.value.id
    }

    /**
     * register: the stripped username and the password are required, the
     * password has at least six characters, the username is free; then one
     * active user is inserted.
     */
    method Register(username: string, password: string, email: Option<string>, fullName: Option<string>, now: Time)
      returns (r: Result<int>)
      requires Valid()
      modifies this`users, this`nextUserId
      ensures Valid()
      ensures r == Err(BadRequest(MissingCredentials)) <==> Strip(username) == "" || password == ""
      ensures r == Err(BadRequest(PasswordTooShort)) <==>
                Strip(username) != "" && password != "" && |password| < MinPasswordLength
      ensures r == Err(BadRequest(UsernameTaken)) <==>
                Strip(username) != "" && |password| >= MinPasswordLength && UsernameInUse(old(users), Strip(username))
      ensures r.Ok? <==>
                Strip(username) != "" && |password| >= MinPasswordLength && !UsernameInUse(old(users), Strip(username))
      ensures r.Err? ==> users == old(users) && nextUserId == old(nextUserId)
      ensures r.Ok? ==>
                && r.value !in old(users)
                && users == old(users)[r.value := User(Strip(username), HashPassword(password),
                                                       StripOrEmpty(email), StripOrEmpty(fullName),
                                                       true, None, now, now)]
                && nextUserId == old(nextUserId) + 1
      ensures r.Ok? ==> MatchesLogin(users, r.value, Strip(username), password)
    {
      var name := Strip(username);
      if name == "" || password == "" {
        return Err(BadRequest(MissingCredentials));
      }
      if |password| < MinPasswordLength {
        return Err(BadRequest(PasswordTooShort));
      }
      if UsernameInUse(users, name) {
        return Err(BadRequest(UsernameTaken));
      }
      var id := nextUserId;
      users := users[id := User(name, HashPassword(password), StripOrEmpty(email), StripOrEmpty(fullName),
                                true, None, now, now)];
      nextUserId := nextUserId + 1;
      r := Ok(id);
    }

    /**
     * login: the active user with this username and password digest gets a
     * new session of seven days under the fresh token.
     */
    method Login(username: string, password: string, token: string, now: Time)
      returns (r: Result<(string, UserInfo)>)
      requires Valid()
      requires token != "" && token !in sessions
      modifies this`sessions
      ensures Valid()
      ensures r == Err(BadRequest(MissingCredentials)) <==> Strip(username) == "" || password == ""
      ensures r == Err(Unauthorized(InvalidCredentials)) <==>
                Strip(username) != "" && password != ""
                && !exists id :: MatchesLogin(users, id, Strip(username), password)
      ensures r.Ok? <==>
                Strip(username) != "" && password != "" && exists id :: MatchesLogin(users, id, Strip(username), password)
      ensures r.Err? ==> sessions == old(sessions)
      ensures r.Ok? ==>
                && MatchesLogin(users, r.value.1.id, Strip(username), password)
                && r.value == (token, InfoOf(r.value.1.id, users[r.value.1.id]))
                && sessions == old(sessions)[token := Session(r.value.1.id, now, now + SessionLifetime)]
      ensures r.Ok? ==> CurrentUser(users, sessions, Some(BearerPrefix + token), now) == Some(r.value.1)
    {
      var name := Strip(username);
      if name == "" || password == "" {
        return Err(BadRequest(MissingCredentials));
      }
      if !exists id :: id in users && MatchesLogin(users, id, name, password) {
        return Err(Unauthorized(InvalidCredentials));
      }
      var id :| id in users && MatchesLogin(users, id, name, password);
      sessions := sessions[token := Session(id, now, now + SessionLifetime)];
      r := Ok((token, InfoOf(id, users[id])));
      BearerRoundTrip(token);
    }

    /**
     * logout: deletes the session whose token the header presents; every
     * other session stays, and an unknown token changes nothing.
     */
    method Logout(header: Option<string>) returns (r: Result<Payload>)
      requires Valid()
      modifies this`sessions
      ensures Valid()
      ensures r == Ok(Done)
      ensures BearerToken(header).Some? && BearerToken(header).value != "" ==>
                sessions == old(sessions) - {BearerToken(header).value}
      ensures BearerToken(header).None? || BearerToken(header).value == "" ==> sessions == old(sessions)
      ensures Snapshot() == old(Snapshot()).(sessions := sessions)
    {
      var token := BearerToken(header);
      if token.Some? && token.value != "" {
        sessions := sessions - {token.value};
      }
      r := Ok(Done);
    }

    /** The UPDATE of one user row that leaves its username alone. */
    method PutUserRow(id: int, v: User)
      requires Valid() && id in users && v.username == users[id].username
      modifies this`users
      ensures Valid() && users == old(users)[id := v]
    {
      RowRewriteKeepsNamesUnique(users, id, v);
      users := users[id := v];
    }

    /**
     * update_current_user: email and full name when given (stripped), the
     * password when non-empty and long enough; at least one of them.
     */
    method UpdateMe(email: Option<string>, fullName: Option<string>, password: Option<string>, now: Time)
      returns (r: Result<Payload>)
      requires Valid() && current.Some?
      modifies this`users
      ensures Valid()
      ensures r.Err? <==> MeRefusal(email, fullName, password).Some?
      ensures r.Err? ==> r.error == MeRefusal(email, fullName, password).value && users == old(users)
      ensures r.Ok? ==>
                && users == old(users)[current.value.id := UpdatedUser(old(users)[current.value.id], email, fullName, password, now)]
                && r.value == UserData(InfoOf(current.value.id, users[current.value.id]))
      ensures Snapshot() == old(Snapshot()).(users := users)
    {
      var built := AssembleUpdates(email, fullName, password);
      if built.Err? {
        return Err(built.error);
      }
      r := WriteMe(built.value, email, fullName, password, now);
    }

    /** The UPDATE of the caller's row with the SET list, then the row read back. */
    method WriteMe(updates: seq<Assignment>, email: Option<string>, fullName: Option<string>, password: Option<string>, now: Time)
      returns (r: Result<Payload>)
      requires Valid() && current.Some? && updates == UpdateList(email, fullName, password)
      modifies this`users
      ensures Valid()
      ensures users == old(users)[current.value.id := UpdatedUser(old(users)[current.value.id], email, fullName, password, now)]
      ensures r == Ok(UserData(InfoOf(current.value.id, users[current.value.id])))
    {
      var id := current.value.id;
      var row := users[id];
      var u := ApplyAssignments(row, updates);
      UpdateListGivesUpdatedUser(row, email, fullName, password, now);
      PutUserRow(id, u.(updatedAt := now));
      r := Ok(UserData(InfoOf(id, users[id])));
    }

    /** create_person: both names non-empty, then one live row of the caller. */
    method CreatePerson(fields: PersonFields, now: Time) returns (r: Result<int>)
      requires Valid() && current.Some?
      modifies this`people, this`nextPersonId
      ensures Valid()
      ensures r.Err? <==> !P.NamesGiven(fields)
      ensures r.Err? ==> r.error == BadRequest(MissingNames) && people == old(people) && nextPersonId == old(nextPersonId)
      ensures r.Ok? ==>
                && r.value == old(nextPersonId) && r.value !in old(people)
                && people == old(people)[r.value := Person(fields, Caller(), now, now, false)]
                && nextPersonId == old(nextPersonId) + 1
      ensures r.Ok? ==> P.GetPerson(people, Caller(), r.value) == Ok(PersonView(r.value, fields, now, now))
      ensures Snapshot() == old(Snapshot()).(people := people, nextPersonId := nextPersonId)
    {
      if !P.NamesGiven(fields) {
        return Err(BadRequest(MissingNames));
      }
      var id := nextPersonId;
      people := people[id := Person(fields, current.value.id, now, now, false)];
      nextPersonId := nextPersonId + 1;
      r := Ok(id);
    }

    /**
     * update_person: a live row of the caller gets all nine fields from the
     * body (absent ones become NULL, names unchecked); otherwise 404.
     */
    method UpdatePerson(id: int, fields: PersonFields, now: Time) returns (r: Result<Payload>)
      requires Valid() && current.Some?
      modifies this`people
      ensures Valid()
      ensures r.Err? <==> !LivePerson(old(people), Caller(), id)
      ensures r.Err? ==> r.error == NotFound && people == old(people)
      ensures r.Ok? ==> r.value == Done && people == old(people)[id := old(people)[id].(fields := fields, updatedAt := now)]
      ensures r.Ok? ==> P.GetPerson(people, Caller(), id).Ok? && P.GetPerson(people, Caller(), id).value.fields == fields
      ensures Snapshot() == old(Snapshot()).(people := people)
    {
      if !LivePerson(people, current.value.id, id) {
        return Err(NotFound);
      }
      people := people[id := people[id].(fields := fields, updatedAt := now)];
      r := Ok(Done);
    }

    /** delete_person: soft delete of a live row of the caller; otherwise 404. */
    method DeletePerson(id: int, now: Time) returns (r: Result<Payload>)
      requires Valid() && current.Some?
      modifies this`people
      ensures Valid()
      ensures r.Err? <==> !LivePerson(old(people), Caller(), id)
      ensures r.Err? ==> r.error == NotFound && people == old(people)
      ensures r.Ok? ==> r.value == Done && people == old(people)[id := old(people)[id].(isDeleted := true, updatedAt := now)]
      ensures P.GetPerson(people, Caller(), id) == Err(NotFound)
      ensures Snapshot() == old(Snapshot()).(people := people)
    {
      if !LivePerson(people, current.value.id, id) {
        return Err(NotFound);
      }
      people := people[id := people[id].(isDeleted := true, updatedAt := now)];
      r := Ok(Done);
    }

    /** create_relationship: the checks of R.CheckRelationship, then one new row. */
    method CreateRelationship(input: R.RelationshipInput, now: Time) returns (r: Result<int>)
      requires Valid() && current.Some?
      modifies this`relationships, this`nextRelId
      ensures Valid()
      ensures r.Err? <==> R.CheckRelationship(people, current.value.id, input).Err?
      ensures r.Err? ==>
                && r.error == R.CheckRelationship(people, current.value.id, input).error
                && relationships == old(relationships) && nextRelId == old(nextRelId)
      ensures r.Ok? ==>
                && r.value == old(nextRelId) && r.value !in old(relationships)
                && relationships == old(relationships)[r.value := Relationship(
                     input.person1.value, input.person2.value, R.NormalizeType(input.relType),
                     input.details, input.startDate, input.endDate, now, now)]
                && nextRelId == old(nextRelId) + 1
      ensures r.Ok? ==> R.Listed(people, relationships, current.value.id, r.value)
      ensures Snapshot() == old(Snapshot()).(relationships := relationships, nextRelId := nextRelId)
    {
      var check := R.CheckRelationship(people, current.value.id, input);
      if check.Err? {
        return Err(check.error);
      }
      var id := nextRelId;
      relationships := relationships[id := Relationship(input.person1.value, input.person2.value, check.value,
                                                        input.details, input.startDate, input.endDate, now, now)];
      nextRelId := nextRelId + 1;
      r := Ok(id);
    }

    /**
     * update_relationship: 404 unless both people are the caller's (deleted
     * or not), before any look at the body; then the checks of create, then
     * every column overwritten.
     */
    method UpdateRelationship(id: int, input: R.RelationshipInput, now: Time) returns (r: Result<Payload>)
      requires Valid() && current.Some?
      modifies this`relationships
      ensures Valid()
      ensures !R.Visible(people, old(relationships), Caller(), id) ==> r == Err(NotFound)
      ensures R.Visible(people, old(relationships), Caller(), id) && R.CheckRelationship(people, Caller(), input).Err? ==>
                r == Err(R.CheckRelationship(people, Caller(), input).error)
      ensures r.Err? ==> relationships == old(relationships)
      ensures r.Ok? <==> R.Visible(people, old(relationships), Caller(), id) && R.CheckRelationship(people, Caller(), input).Ok?
      ensures r.Ok? ==>
                && r.value == Done
                && relationships == old(relationships)[id := Relationship(
                     input.person1.value, input.person2.value, R.NormalizeType(input.relType),
                     input.details, input.startDate, input.endDate, old(relationships)[id].createdAt, now)]
      ensures Snapshot() == old(Snapshot()).(relationships := relationships)
    {
      if !R.Visible(people, relationships, current.value.id, id) {
        return Err(NotFound);
      }
      var check := R.CheckRelationship(people, current.value.id, input);
      if check.Err? {
        return Err(check.error);
      }
      relationships := relationships[id := Relationship(input.person1.value, input.person2.value, check.value,
                                                        input.details, input.startDate, input.endDate,
                                                        relationships[id].createdAt, now)];
      r := Ok(Done);
    }

    /** delete_relationship: removes the row when both people are the caller's; otherwise 404. */
    method DeleteRelationship(id: int) returns (r: Result<Payload>)
      requires Valid() && current.Some?
      modifies this`relationships
      ensures Valid()
      ensures r.Ok? <==> R.Visible(people, old(relationships), Caller(), id)
      ensures r.Err? ==> r.error == NotFound && relationships == old(relationships)
      ensures r.Ok? ==> r.value == Done && relationships == old(relationships) - {id}
      ensures Snapshot() == old(Snapshot()).(relationships := relationships)
    {
      if !R.Visible(people, relationships, current.value.id, id) {
        return Err(NotFound);
      }
      relationships := relationships - {id};
      r := Ok(Done);
    }

    /** create_event: a person id and a non-blank title, then one row of the caller. */
    method CreateEvent(input: E.EventInput, now: Time) returns (r: Result<int>)
      requires Valid() && current.Some?
      modifies this`events, this`nextEventId
      ensures Valid()
      ensures r.Err? <==> E.CheckEvent(input).Err?
      ensures r.Err? ==> r.error == BadRequest(MissingPersonOrTitle) && events == old(events) && nextEventId == old(nextEventId)
      ensures r.Ok? ==>
                && r.value == old(nextEventId) && r.value !in old(events)
                && events == old(events)[r.value := E.NewEvent(input, Strip(input.title), input.createdBy.value, Caller(), now)]
                && nextEventId == old(nextEventId) + 1
      ensures r.Ok? ==> E.OwnedEvent(events, Caller(), r.value)
      ensures Snapshot() == old(Snapshot()).(events := events, nextEventId := nextEventId)
    {
      var check := E.CheckEvent(input);
      if check.Err? {
        return Err(check.error);
      }
      var id := nextEventId;
      events := events[id := E.NewEvent(input, check.value.0, check.value.1, current.value.id, now)];
      nextEventId := nextEventId + 1;
      r := Ok(id);
    }

    /**
     * update_event: the body is checked first (400 whatever the id), then
     * the UPDATE matches the id among the caller's rows or reports 404.
     */
    method UpdateEvent(id: int, input: E.EventInput, now: Time) returns (r: Result<Payload>)
      requires Valid() && current.Some?
      modifies this`events
      ensures Valid()
      ensures E.CheckEvent(input).Err? ==> r == Err(BadRequest(MissingPersonOrTitle))
      ensures E.CheckEvent(input).Ok? && !E.OwnedEvent(old(events), Caller(), id) ==> r == Err(NotFound)
      ensures r.Ok? <==> E.CheckEvent(input).Ok? && E.OwnedEvent(old(events), Caller(), id)
      ensures r.Err? ==> events == old(events)
      ensures r.Ok? ==>
                && r.value == Done
                && events == old(events)[id := E.UpdatedEvent(old(events)[id], input, Strip(input.title), input.createdBy.value, now)]
                && events[id].owner == old(events)[id].owner && events[id].createdAt == old(events)[id].createdAt
      ensures Snapshot() == old(Snapshot()).(events := events)
    {
      var check := E.CheckEvent(input);
      if check.Err? {
        return Err(check.error);
      }
      if !E.OwnedEvent(events, current.value.id, id) {
        return Err(NotFound);
      }
      events := events[id := E.UpdatedEvent(events[id], input, check.value.0, check.value.1, now)];
      r := Ok(Done);
    }

    /** delete_event: removes the caller's row with that id; otherwise 404. */
    method DeleteEvent(id: int) returns (r: Result<Payload>)
      requires Valid() && current.Some?
      modifies this`events
      ensures Valid()
      ensures r.Ok? <==> E.OwnedEvent(old(events), Caller(), id)
      ensures r.Err? ==> r.error == NotFound && events == old(events)
      ensures r.Ok? ==> r.value == Done && events == old(events) - {id}
      ensures id !in events || events == old(events)
      ensures Snapshot() == old(Snapshot()).(events := events)
    {
      if !E.OwnedEvent(events, current.value.id, id) {
        return Err(NotFound);
      }
      events := events - {id};
      r := Ok(Done);
    }

    /**
     * upload_profile_photo: a file whose name passes allowed_file is stored
     * under the caller's directory, and only the caller's row records it.
     * The sanitised name is a parameter.
     */
    method UploadProfilePhoto(filename: Option<string>, savedName: string, now: Time) returns (r: Result<Payload>)
      requires Valid() && current.Some?
      modifies this`users
      ensures Valid()
      ensures r.Err? <==> filename.None? || !AllowedFile(filename.value)
      ensures r.Err? ==> r.error == BadRequest(InvalidFile) && users == old(users)
      ensures r.Ok? ==>
                && Caller() > 0
                && r.value == PhotoData(PhotoPath(Caller(), savedName))
                && users == old(users)[Caller() := old(users)[Caller()].(profilePhoto := Some(r.value.path), updatedAt := now)]
      ensures Snapshot() == old(Snapshot()).(users := users)
    {
      if filename.None? || !AllowedFile(filename.value) {
        return Err(BadRequest(InvalidFile));
      }
      var id := current.value.id;
      var path := PhotoPath(id, savedName);
      PutUserRow(id, users[id].(profilePhoto := Some(path), updatedAt := now));
      r := Ok(PhotoData(path));
    }

    /** deactivate_account: clears is_active on the caller's row only; no session is deleted. */
    method Deactivate(now: Time) returns (r: Result<Payload>)
      requires Valid() && current.Some?
      modifies this`users
      ensures Valid()
      ensures r == Ok(Done)
      ensures users == old(users)[Caller() := old(users)[Caller()].(isActive := false, updatedAt := now)]
      ensures Snapshot() == old(Snapshot()).(users := users)
    {
      var id := current.value.id;
      PutUserRow(id, users[id].(isActive := false, updatedAt := now));
      r := Ok(Done);
    }
    /**
     * require_auth in front of a protected route: without a user behind the
     * bearer token the answer is 401 and nothing changes; otherwise the user
     * becomes current and the route's handler runs once, with the outcome
     * GateOutcome gives.
     */
    method Serve(header: Option<string>, now: Time, req: Request) returns (resp: Result<Payload>)
      requires Valid()
      modifies this
      ensures Valid()
      ensures CurrentUser(old(users), old(sessions), header, now).None? ==>
                resp == Err(Unauthorized(AuthenticationRequired)) && unchanged(this)
      ensures CurrentUser(old(users), old(sessions), header, now).Some? ==>
                && current == CurrentUser(old(users), old(sessions), header, now)
                && (Snapshot(), resp) == GateOutcome(old(Snapshot()), current.value, header, now, req)
                && !(resp.Err? && resp.error.Unauthorized?)
    {
      var user := CurrentUser(users, sessions, header, now);
      if user.None? {
        return Err(Unauthorized(AuthenticationRequired));
      }
      current := user;
      match req
      case ToAuth(route) => resp := ServeAuth(header, now, route);
      case ToUsers(route) => resp := ServeUsers(now, route);
      case ToPeople(route) => resp := ServePeople(now, route);
      case ToRelationships(route) => resp := ServeRelationships(now, route);
      case ToEvents(route) => resp := ServeEvents(now, route);
    }

    /** auth_bp's protected routes. */
    method ServeAuth(header: Option<string>, now: Time, route: AuthRoute) returns (resp: Result<Payload>)
      requires Valid() && current.Some?
      modifies this
      ensures Valid() && current == old(current)
      ensures (Snapshot(), resp) == AuthOutcome(old(Snapshot()), current.value, header, now, route)
      ensures !(resp.Err? && resp.error.Unauthorized?)
    {
      match route
      case PostLogout =>
        resp := Logout(header);
      case GetMe =>
        resp := Ok(UserData(current.value));
      case PutMe(email, fullName, password) =>
        resp := UpdateMe(email, fullName, password, now);
    }

    /** users_bp */
    method ServeUsers(now: Time, route: UsersRoute) returns (resp: Result<Payload>)
      requires Valid() && current.Some?
      modifies this
      ensures Valid() && current == old(current)
      ensures current.value.id > 0 && (Snapshot(), resp) == UsersOutcome(old(Snapshot()), current.value.id, now, route)
      ensures !(resp.Err? && resp.error.Unauthorized?)
    {
      match route
      case PostProfilePhoto(filename, savedName) =>
        resp := UploadProfilePhoto(filename, savedName, now);
      case PostDeactivate =>
        resp := Deactivate(now);
    }

    /** people_bp */
    method ServePeople(now: Time, route: PeopleRoute) returns (resp: Result<Payload>)
      requires Valid() && current.Some?
      modifies this
      ensures Valid() && current == old(current)
      ensures (Snapshot(), resp) == PeopleOutcome(old(Snapshot()), current.value.id, now, route)
      ensures !(resp.Err? && resp.error.Unauthorized?)
    {
      var caller := current.value.id;
      ghost var before := Snapshot();
      match route
      case GetPeople =>
        resp := Ok(PeopleData(P.ListPeople(people, caller)));
      case GetPersonAt(id) =>
        var found := P.GetPerson(people, caller, id);
        resp := if found.Ok? then Ok(PersonData(found.value)) else Err(found.error);
      case PostPeople(fields) =>
        var created := CreatePerson(fields, now);
        resp := if created.Ok? then Ok(Created(created.value)) else Err(created.error);
        assert (Snapshot(), resp) == PeopleOutcome(before, caller, now, route);
      case PutPersonAt(id, fields) =>
        resp := UpdatePerson(id, fields, now);
        assert (Snapshot(), resp) == PeopleOutcome(before, caller, now, route);
      case DeletePersonAt(id) =>
        resp := DeletePerson(id, now);
        assert (Snapshot(), resp) == PeopleOutcome(before, caller, now, route);
    }

    /** relationships_bp */
    method ServeRelationships(now: Time, route: RelationshipsRoute) returns (resp: Result<Payload>)
      requires Valid() && current.Some?
      modifies this
      ensures Valid() && current == old(current)
      ensures (Snapshot(), resp) == RelationshipsOutcome(old(Snapshot()), current.value.id, now, route)
      ensures !(resp.Err? && resp.error.Unauthorized?)
    {
      var caller := current.value.id;
      ghost var before := Snapshot();
      match route
      case GetRelationshipTypes =>
        resp := Ok(TypesData(RelationTypes));
      case GetRelationships =>
        resp := Ok(RelationshipsData(R.ListRelationships(people, relationships, caller)));
      case GetRelationshipAt(id) =>
        var found := R.GetRelationship(people, relationships, caller, id);
        resp := if found.Ok? then Ok(RelationshipData(found.value)) else Err(found.error);
      case PostRelationships(input) =>
        var created := CreateRelationship(input, now);
        resp := if created.Ok? then Ok(Created(created.value)) else Err(created.error);
        assert (Snapshot(), resp) == RelationshipsOutcome(before, caller, now, route);
      case PutRelationshipAt(id, input) =>
        resp := UpdateRelationship(id, input, now);
        assert (Snapshot(), resp) == RelationshipsOutcome(before, caller, now, route);
      case DeleteRelationshipAt(id) =>
        resp := DeleteRelationship(id);
        assert (Snapshot(), resp) == RelationshipsOutcome(before, caller, now, route);
    }

    /** events_bp */
    method ServeEvents(now: Time, route: EventsRoute) returns (resp: Result<Payload>)
      requires Valid() && current.Some?
      modifies this
      ensures Valid() && current == old(current)
      ensures (Snapshot(), resp) == EventsOutcome(old(Snapshot()), current.value.id, now, route)
      ensures !(resp.Err? && resp.error.Unauthorized?)
    {
      var caller := current.value.id;
      ghost var before := Snapshot();
      match route
      case GetEvents =>
        resp := Ok(EventsData(E.ListEvents(people, events, caller)));
      case GetEventAt(id) =>
        var found := E.GetEvent(people, events, caller, id);
        resp := if found.Ok? then Ok(EventData(found.value)) else Err(found.error);
      case PostEvents(input) =>
        var created := CreateEvent(input, now);
        resp := if created.Ok? then Ok(Created(created.value)) else Err(created.error);
        assert (Snapshot(), resp) == EventsOutcome(before, caller, now, route);
      case PutEventAt(id, input) =>
        resp := UpdateEvent(id, input, now);
        assert (Snapshot(), resp) == EventsOutcome(before, caller, now, route);
      case DeleteEventAt(id) =>
        resp := DeleteEvent(id);
        assert (Snapshot(), resp) == EventsOutcome(before, caller, now, route);
    }
  }

  /** Past the gate, no route answers 401: every refusal is a 400 or a 404. */
  lemma GateNeverUnauthorized(t: Tables, me: UserInfo, header: Option<string>, now: Time, req: Request)
    requires me.id in t.users && 0 < me.id
    ensures GateOutcome(t, me, header, now, req).1.Err? ==>
              GateOutcome(t, me, header, now, req).1.error.BadRequest?
              || GateOutcome(t, me, header, now, req).1.error == NotFound
    ensures GateOutcome(t, me, header, now, req).1.Err? ==>
              StatusOf(GateOutcome(t, me, header, now, req).1.error) in {400, 404}
  {
  }

  /** The routes that only read: GET /me and the GETs of people, relationships and events. */
  predicate ReadRoute(req: Request) {
    match req
    case ToAuth(route) => route.GetMe?
    case ToUsers(_) => false
    case ToPeople(route) => route.GetPeople? || route.GetPersonAt?
    case ToRelationships(route) => route.GetRelationshipTypes? || route.GetRelationships? || route.GetRelationshipAt?
    case ToEvents(route) => route.GetEvents? || route.GetEventAt?
  }

  /**
   * A GET changes no table, and neither does a refused request: every
   * handler answers 400 or 404 before it writes.
   */
  lemma ReadsAndRefusalsChangeNothing(t: Tables, me: UserInfo, header: Option<string>, now: Time, req: Request)
    requires me.id in t.users && 0 < me.id
    ensures ReadRoute(req) ==> GateOutcome(t, me, header, now, req).0 == t
    ensures GateOutcome(t, me, header, now, req).1.Err? ==> GateOutcome(t, me, header, now, req).0 == t
  {
  }

  /**
   * No request changes a person of another user: the people routes write
   * only the caller's live rows and the free next rowid.
   */
  lemma OtherUsersPeopleUntouched(t: Tables, me: UserInfo, header: Option<string>, now: Time, req: Request, k: int)
    requires me.id in t.users && 0 < me.id
    requires t.nextPersonId !in t.people
    requires k in t.people && t.people[k].owner != me.id
    ensures k in GateOutcome(t, me, header, now, req).0.people
    ensures GateOutcome(t, me, header, now, req).0.people[k] == t.people[k]
  {
  }

  /** No request changes an event of another user. */
  lemma OtherUsersEventsUntouched(t: Tables, me: UserInfo, header: Option<string>, now: Time, req: Request, k: int)
    requires me.id in t.users && 0 < me.id
    requires t.nextEventId !in t.events
    requires k in t.events && t.events[k].owner != me.id
    ensures k in GateOutcome(t, me, header, now, req).0.events
    ensures GateOutcome(t, me, header, now, req).0.events[k] == t.events[k]
  {
  }

  /** No request changes another user's account row. */
  lemma OtherAccountsUntouched(t: Tables, me: UserInfo, header: Option<string>, now: Time, req: Request, k: int)
    requires me.id in t.users && 0 < me.id
    requires k in t.users && k != me.id
    ensures k in GateOutcome(t, me, header, now, req).0.users
    ensures GateOutcome(t, me, header, now, req).0.users[k] == t.users[k]
  {
  }

  /** POST /people answers 201 exactly when both names are given, and the new person is then found and listed. */
  lemma CreatedPersonListed(t: Tables, me: UserInfo, header: Option<string>, now: Time, fields: PersonFields)
    requires me.id in t.users && 0 < me.id
    ensures var out := GateOutcome(t, me, header, now, ToPeople(PostPeople(fields)));
            && (out.1.Ok? <==> P.NamesGiven(fields))
            && (out.1.Ok? ==>
                  && out.1.value == Created(t.nextPersonId)
                  && P.GetPerson(out.0.people, me.id, t.nextPersonId) == Ok(PersonView(t.nextPersonId, fields, now, now))
                  && exists i :: 0 <= i < |P.ListPeople(out.0.people, me.id)| && P.ListPeople(out.0.people, me.id)[i].id == t.nextPersonId)
  {
    var out := GateOutcome(t, me, header, now, ToPeople(PostPeople(fields)));
    if out.1.Ok? {
      assert LivePerson(out.0.people, me.id, t.nextPersonId);
      var listed := P.ListPeople(out.0.people, me.id);
      assert exists i :: 0 <= i < |listed| && listed[i].id == t.nextPersonId;
    }
  }

  /** After DELETE /people/<id> the person is neither found nor listed, whatever the answer was. */
  lemma DeletedPersonGone(t: Tables, me: UserInfo, header: Option<string>, now: Time, id: int)
    requires me.id in t.users && 0 < me.id
    ensures var out := GateOutcome(t, me, header, now, ToPeople(DeletePersonAt(id)));
            && (out.1.Ok? <==> LivePerson(t.people, me.id, id))
            && P.GetPerson(out.0.people, me.id, id) == Err(NotFound)
            && forall i :: 0 <= i < |P.ListPeople(out.0.people, me.id)| ==> P.ListPeople(out.0.people, me.id)[i].id != id
  {
  }

  /** POST /relationships answers 201 exactly when the checks pass, and the new row is then listed and readable. */
  lemma CreatedRelationshipListed(t: Tables, me: UserInfo, header: Option<string>, now: Time, input: R.RelationshipInput)
    requires me.id in t.users && 0 < me.id
    ensures var out := GateOutcome(t, me, header, now, ToRelationships(PostRelationships(input)));
            && (out.1.Ok? <==> R.CheckRelationship(t.people, me.id, input).Ok?)
            && (out.1.Ok? ==>
                  && out.1.value == Created(t.nextRelId)
                  && R.Listed(out.0.people, out.0.relationships, me.id, t.nextRelId)
                  && R.GetRelationship(out.0.people, out.0.relationships, me.id, t.nextRelId).Ok?)
  {
  }

  /** After DELETE /events/<id> the event is not found, whatever the answer was. */
  lemma DeletedEventGone(t: Tables, me: UserInfo, header: Option<string>, now: Time, id: int)
    requires me.id in t.users && 0 < me.id
    ensures var out := GateOutcome(t, me, header, now, ToEvents(DeleteEventAt(id)));
            && (out.1.Ok? <==> E.OwnedEvent(t.events, me.id, id))
            && E.GetEvent(out.0.people, out.0.events, me.id, id) == Err(NotFound)
  {
  }

  /** After POST /auth/logout the header that was presented authenticates no one. */
  lemma LogoutEndsPresentedSession(t: Tables, me: UserInfo, header: Option<string>, now: Time, later: Time)
    requires me.id in t.users && 0 < me.id
    requires "" !in t.sessions
    ensures var after := GateOutcome(t, me, header, now, ToAuth(PostLogout)).0;
            CurrentUser(after.users, after.sessions, header, later) == None
  {
  }

  /** After POST /users/deactivate no header, now or later, authenticates the user. */
  lemma DeactivationLocksOut(t: Tables, me: UserInfo, header: Option<string>, now: Time, other: Option<string>, later: Time)
    requires me.id in t.users && 0 < me.id
    ensures var after := GateOutcome(t, me, header, now, ToUsers(PostDeactivate)).0;
            CurrentUser(after.users, after.sessions, other, later).Some? ==>
              CurrentUser(after.users, after.sessions, other, later).value.id != me.id
  {
  }

  lemma {:induction false} AssignAllConcat(u: User, xs: seq<Assignment>, ys: seq<Assignment>)
    ensures AssignAll(u, xs + ys) == AssignAll(AssignAll(u, xs), ys)
    decreases |ys|
  {
    if ys == [] {
      assert xs + ys == xs;
    } else {
      var zs := xs + ys;
      assert zs[..|zs| - 1] == xs + ys[..|ys| - 1];
      AssignAllConcat(u, xs, ys[..|ys| - 1]);
    }
  }

  /** The SET list update_current_user assembles, in its order: email, full name, password. */
  function UpdateList(email: Option<string>, fullName: Option<string>, password: Option<string>): seq<Assignment> {
    (if email.Some? then [SetEmail(Strip(email.value))] else [])
    + (if fullName.Some? then [SetFullName(Strip(fullName.value))] else [])
    + (if Present(password) then [SetPasswordHash(HashPassword(password.value))] else [])
  }

  /** The SET list update_current_user builds comes to the field-wise update. */
  lemma AssignAllFields(u: User, email: Option<string>, fullName: Option<string>, password: Option<string>)
    ensures AssignAll(u, UpdateList(email, fullName, password)) == u.(
              email := if email.Some? then Strip(email.value) else u.email,
              fullName := if fullName.Some? then Strip(fullName.value) else u.fullName,
              passwordHash := if Present(password) then HashPassword(password.value) else u.passwordHash)
  {
    var e := if email.Some? then [SetEmail(Strip(email.value))] else [];
    var f := if fullName.Some? then [SetFullName(Strip(fullName.value))] else [];
    var p := if Present(password) then [SetPasswordHash(HashPassword(password.value))] else [];
    AssignAllConcat(u, e, f);
    AssignAllConcat(u, e + f, p);
    assert e[..0] == [] && f[..0] == [] && p[..0] == [];
    var u1 := AssignAll(u, e);
    var u2 := AssignAll(u1, f);
    assert AssignAll(u1, f) == if fullName.Some? then Assign(AssignAll(u1, []), f[0]) else u1;
    assert AssignAll(u2, p) == if Present(password) then Assign(AssignAll(u2, []), p[0]) else u2;
  }

  /** Rewriting one row without touching its username keeps usernames unique and the ids as they were. */
  lemma RowRewriteKeepsNamesUnique(users: map<int, User>, id: int, v: User)
    requires id in users && v.username == users[id].username
    requires UniqueUsernames(users)
    ensures users[id := v].Keys == users.Keys
    ensures UniqueUsernames(users[id := v])
  {
    var after := users[id := v];
    forall a, b | a in after && b in after && after[a].username == after[b].username
      ensures a == b
    {
      assert after[a].username == users[a].username && after[b].username == users[b].username;
    }
  }

  /** The SET list applied and updated_at stamped give the row UpdatedUser describes. */
  lemma UpdateListGivesUpdatedUser(u: User, email: Option<string>, fullName: Option<string>, password: Option<string>, now: Time)
    ensures AssignAll(u, UpdateList(email, fullName, password)).(updatedAt := now) == UpdatedUser(u, email, fullName, password, now)
  {
    AssignAllFields(u, email, fullName, password);
  }

  /**
   * Deactivation locks the account out of login: with unique usernames, no
   * row matches the deactivated user's name, whatever the password.
   */
  lemma DeactivatedCannotLogin(users: map<int, User>, uid: int, password: string)
    requires uid in users && !users[uid].isActive
    requires UniqueUsernames(users)
    ensures !exists id :: MatchesLogin(users, id, users[uid].username, password)
  {
  }

  /**
   * After logout the presented token resolves to no one, and every other
   * token resolves as before, including other sessions of the same user.
   */
  lemma LogoutRevokesOnlyThatToken(users: map<int, User>, sessions: map<string, Session>, token: string, other: string, now: Time)
    requires other != token
    ensures CurrentUser(users, sessions - {token}, Some(BearerPrefix + token), now) == None
    ensures CurrentUser(users, sessions - {token}, Some(BearerPrefix + other), now)
              == CurrentUser(users, sessions, Some(BearerPrefix + other), now)
  {
    BearerRoundTrip(token);
    BearerRoundTrip(other);
  }

  /**
   * Deactivation deletes no session, yet none of the user's sessions
   * authenticates afterwards.
   */
  lemma DeactivationEndsSessions(users: map<int, User>, sessions: map<string, Session>, uid: int, now: Time, token: string)
    requires uid in users && token in sessions && sessions[token].userId == uid
    ensures var after := users[uid := users[uid].(isActive := false, updatedAt := now)];
            token in sessions && CurrentUser(after, sessions, Some(BearerPrefix + token), now) == None
  {
    BearerRoundTrip(token);
  }
}
