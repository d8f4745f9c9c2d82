/**
 * The rows of the five tables, the projections the handlers answer with,
 * and the configuration constants the handlers use.
 */
module Schema {
  import opened Common

  /** Timestamps are seconds on the clock passed to each handler. */
  type Time = int

  /** The relation kinds a relationship may carry (config.py RELATION_TYPES). */
  const RelationTypes: seq<string> := ["father", "mother", "brother", "sister", "husband", "wife"]

  /** Login hard-codes sessions of seven days. */
  const SessionLifetime: int := 7 * 24 * 60 * 60

  /** register and update_current_user hard-code a minimum password length of six. */
  const MinPasswordLength: int := 6

  /**
   * The stored password digest. SHA-256 is replaced by a stand-in that keeps
   * the only property the handlers rely on: equal digests mean equal passwords.
   */
  datatype Digest = Digest(password: string)

  function HashPassword(password: string): Digest {
    Digest(password)
  }

  lemma HashInjective(a: string, b: string)
    requires HashPassword(a) == HashPassword(b)
    ensures a == b
  {
  }

  datatype User = User(
    username: string,
    passwordHash: Digest,
    email: string,
    fullName: string,
    isActive: bool,
    profilePhoto: Option<string>,
    createdAt: Time,
    updatedAt: Time)

  /** The projection get_current_user and login return: id, username, email, full_name. */
  datatype UserInfo = UserInfo(id: int, username: string, email: string, fullName: string)

  function InfoOf(id: int, u: User): (info: UserInfo)
    ensures info.id == id && info.username == u.username
  {
    UserInfo(id, u.username, u.email, u.fullName)
  }

  /** A session row; the table is keyed by the session token. */
  datatype Session = Session(userId: int, createdAt: Time, expiresAt: Time)

  /** The nine columns of a person the client writes (absent means NULL). */
  datatype PersonFields = PersonFields(
    givenName: Option<string>,
    familyName: Option<string>,
    otherNames: Option<string>,
    gender: Option<string>,
    birthDate: Option<string>,
    deathDate: Option<string>,
    birthPlace: Option<string>,
    bio: Option<string>,
    relation: Option<string>)

  datatype Person = Person(
    fields: PersonFields,
    owner: int,
    createdAt: Time,
    updatedAt: Time,
    isDeleted: bool)

  /** A person as the GET handlers return it: without owner and deletion flag. */
  datatype PersonView = PersonView(id: int, fields: PersonFields, createdAt: Time, updatedAt: Time)

  datatype Relationship = Relationship(
    person1: int,
    person2: int,
    relType: string,
    details: Option<string>,
    startDate: Option<string>,
    endDate: Option<string>,
    createdAt: Time,
    updatedAt: Time)

  /** A relationship as the GET handlers return it, with both people's display names. */
  datatype RelationshipView = RelationshipView(
    id: int,
    person1: int,
    person1Name: Option<string>,
    person2: int,
    person2Name: Option<string>,
    relType: string,
    details: Option<string>,
    startDate: Option<string>,
    endDate: Option<string>,
    createdAt: Time,
    updatedAt: Time)

  /** Latitude and longitude are carried, never computed with. */
  type Coordinate = real

  datatype Event = Event(
    title: string,
    eventDate: Option<string>,
    place: Option<string>,
    placeLat: Option<Coordinate>,
    placeLng: Option<Coordinate>,
    description: Option<string>,
    createdBy: int,
    owner: int,
    createdAt: Time,
    updatedAt: Time)

  /** An event as the GET handlers return it, with its person's display name. */
  datatype EventView = EventView(
    id: int,
    title: string,
    eventDate: Option<string>,
    place: Option<string>,
    placeLat: Option<Coordinate>,
    placeLng: Option<Coordinate>,
    description: Option<string>,
    createdBy: int,
    personName: Option<string>)

  /**
   * `given_name || ' ' || family_name`: SQL concatenation with NULL is NULL.
   */
  function DisplayName(p: Person): (name: Option<string>)
    ensures name.Some? <==> p.fields.givenName.Some? && p.fields.familyName.Some?
  {
    match (p.fields.givenName, p.fields.familyName)
    case (Some(g), Some(f)) => Some(g + " " + f)
    case _ => None
  }

  /** A row of People the caller may see: owned by the caller and not soft-deleted. */
  predicate LivePerson(people: map<int, Person>, caller: int, id: int) {
    id in people && people[id].owner == caller && !people[id].isDeleted
  }
}
