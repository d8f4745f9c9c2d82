/**
 * The submit guards of the browser forms set against the checks the server
 * runs on the same fields.
 */
module ClientChecks {
  import opened Common
  import opened Text
  import opened Schema
  import opened Frontend
  import R = Relationships
  import E = Events

  /** Whatever the server accepts as an event, the form would have sent. */
  lemma ServerAcceptedEventPassesForm(input: E.EventInput)
    requires E.CheckEvent(input).Ok?
    ensures EventFormSubmits(input.createdBy, input.title)
  {
    StripEmptyIffBlank(input.title);
  }

  /**
   * The converse fails: the form tests the raw title, the server the
   * stripped one, so a title of blanks is sent and refused with 400.
   */
  lemma BlankTitlePassesFormOnly(person: int, title: string, input: E.EventInput)
    requires person != 0 && title != []
    requires forall k :: 0 <= k < |title| ==> IsSpace(title[k])
    requires input.createdBy == Some(person) && input.title == title
    ensures EventFormSubmits(Some(person), title)
    ensures E.CheckEvent(input) == Err(BadRequest(MissingPersonOrTitle))
  {
    E.BlankTitleRejected(input);
  }

  /** A relationship the form sends never meets the server's "both people are required". */
  lemma RelationshipFormNeverMissingPeople(people: map<int, Person>, caller: int, input: R.RelationshipInput)
    requires input.relType.Some?
    requires RelationshipFormSubmits(input.person1, input.person2, input.relType.value)
    ensures R.CheckRelationship(people, caller, input) != Err(BadRequest(MissingPeople))
  {
  }

  /**
   * Whatever the relation select offers and the form lets through is a
   * kind the server knows: the client's list is the server's.
   */
  lemma FormSendsOnlyKnownKinds(person1: Option<int>, person2: Option<int>, chosen: string)
    requires chosen in RelationOptions
    requires RelationshipFormSubmits(person1, person2, chosen)
    ensures chosen in RelationTypes && R.NormalizeType(Some(chosen)) == chosen
  {
    R.RelationTypesAccepted(chosen);
  }

  /**
   * The server accepts a relationship without a kind, which the form never
   * sends: its only option with no kind is the placeholder, and the guard
   * refuses it. Untyped relationships come only from other clients.
   */
  lemma UntypedRelationshipOnlyFromOtherClients(people: map<int, Person>, caller: int, a: int, b: int,
                                                input: R.RelationshipInput, chosen: string)
    requires a != 0 && b != 0 && a != b
    requires LivePerson(people, caller, a) && LivePerson(people, caller, b)
    requires input.person1 == Some(a) && input.person2 == Some(b) && input.relType == None
    requires chosen in RelationOptions
    ensures R.CheckRelationship(people, caller, input) == Ok("")
    ensures RelationshipFormSubmits(Some(a), Some(b), chosen) ==> chosen != "" && chosen in RelationTypes
  {
    if RelationshipFormSubmits(Some(a), Some(b), chosen) {
      FormSendsOnlyKnownKinds(Some(a), Some(b), chosen);
    }
  }
}
