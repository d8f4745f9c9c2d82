/**
 * The read side of the event routes and the check create and update share.
 * An event belongs to the user who created it; the person it names
 * (created_by) is stored as given.
 */
module Events {
  import opened Common
  import opened Text
  import opened Schema
  import opened Ordering

  /** The JSON body of a create or update; `title` is read with a default of "". */
  datatype EventInput = EventInput(
    createdBy: Option<int>,
    title: string,
    eventDate: Option<string>,
    place: Option<string>,
    placeLat: Option<Coordinate>,
    placeLng: Option<Coordinate>,
    description: Option<string>)

  /**
   * `if not person_id or not title`, with the title stripped: on success, the
   * stored title and person.
   */
  function CheckEvent(input: EventInput): (r: Result<(string, int)>)
    ensures r.Err? <==> !PresentId(input.createdBy) || Strip(input.title) == ""
    ensures r.Err? ==> r.error == BadRequest(MissingPersonOrTitle)
    ensures r.Ok? ==> r.value.0 != "" && r.value.0 == Strip(input.title)
    ensures r.Ok? ==> r.value.1 == input.createdBy.value && r.value.1 != 0
  {
    var title := Strip(input.title);
    if !PresentId(input.createdBy) || title == "" then Err(BadRequest(MissingPersonOrTitle))
    else Ok((title, input.createdBy.value))
  }

  /** A title of whitespace only, or no title, is refused like a missing person. */
  lemma BlankTitleRejected(input: EventInput)
    requires forall k :: 0 <= k < |input.title| ==> IsSpace(input.title[k])
    ensures CheckEvent(input) == Err(BadRequest(MissingPersonOrTitle))
  {
    StripEmptyIffBlank(input.title);
  }

  /**
   * The row an accepted input becomes, owned by the caller; the person is
   * any non-zero id, checked against nothing.
   */
  function NewEvent(input: EventInput, title: string, person: int, caller: int, now: Time): Event {
    Event(title, input.eventDate, input.place, input.placeLat, input.placeLng, input.description,
          person, caller, now, now)
  }

  /** The row an update leaves: every written column replaced, created_at and owner kept. */
  function UpdatedEvent(old_: Event, input: EventInput, title: string, person: int, now: Time): Event {
    Event(title, input.eventDate, input.place, input.placeLat, input.placeLng, input.description,
          person, old_.owner, old_.createdAt, now)
  }

  /** An event row of the caller. */
  predicate OwnedEvent(events: map<int, Event>, caller: int, id: int) {
    id in events && events[id].owner == caller
  }

  /**
   * `ORDER BY event_date IS NULL, event_date DESC, id DESC` on two rows:
   * dated events first, latest date first, then highest id first.
   */
  predicate EventBefore(da: Option<string>, a: int, db: Option<string>, b: int) {
    match (da, db)
    case (Some(x), Some(y)) => if x == y then a >= b else LexLe(y, x)
    case (Some(_), None) => true
    case (None, Some(_)) => false
    case (None, None) => a >= b
  }

  lemma {:induction false} EventBeforeIsTotalOrder(da: Option<string>, a: int, db: Option<string>, b: int, dc: Option<string>, c: int)
    ensures EventBefore(da, a, db, b) || EventBefore(db, b, da, a)
    ensures EventBefore(da, a, db, b) && EventBefore(db, b, da, a) ==> da == db && a == b
    ensures EventBefore(da, a, db, b) && EventBefore(db, b, dc, c) ==> EventBefore(da, a, dc, c)
  {
    if da.Some? && db.Some? && da.value != db.value {
      LexLeTotal(da.value, db.value);
      if LexLe(da.value, db.value) && LexLe(db.value, da.value) {
        LexLeAntisymmetric(da.value, db.value);
      }
    }
    if da.Some? && db.Some? && dc.Some? && EventBefore(da, a, db, b) && EventBefore(db, b, dc, c) {
      var x, y, z := da.value, db.value, dc.value;
      if x != y && y != z {
        LexLeTransitive(z, y, x);
        if x == z {
          LexLeAntisymmetric(x, y);
        }
      }
    }
  }

  function DateOf(events: map<int, Event>, id: int): Option<string> {
    if id in events then events[id].eventDate else None
  }

  function EventOrder(events: map<int, Event>): (int, int) -> bool {
    (a: int, b: int) => EventBefore(DateOf(events, a), a, DateOf(events, b), b)
  }

  lemma EventOrderIsTotalPreorder(events: map<int, Event>)
    ensures TotalPreorder(EventOrder(events))
  {
    var le := EventOrder(events);
    forall a, b, c
      ensures le(a, b) || le(b, a)
      ensures le(a, b) && le(b, c) ==> le(a, c)
    {
      EventBeforeIsTotalOrder(DateOf(events, a), a, DateOf(events, b), b, DateOf(events, c), c);
    }
  }

  /**
   * `LEFT JOIN People p ON e.created_by = p.id`: the display name of whatever
   * People row has that id, whoever owns it and whether or not it is deleted.
   */
  function PersonName(people: map<int, Person>, id: int): Option<string> {
    if id in people then DisplayName(people[id]) else None
  }

  function ViewOfEvent(people: map<int, Person>, id: int, e: Event): EventView {
    EventView(id, e.title, e.eventDate, e.place, e.placeLat, e.placeLng, e.description,
              e.createdBy, PersonName(people, e.createdBy))
  }

  function OwnedIds(events: map<int, Event>, caller: int): (ids: seq<int>)
    ensures forall id :: id in ids <==> OwnedEvent(events, caller, id)
    ensures forall i, j :: 0 <= i < j < |ids| ==> ids[i] != ids[j]
    ensures SortedBy(ids, EventOrder(events))
  {
    EventOrderIsTotalPreorder(events);
    var owned := set id | id in events && OwnedEvent(events, caller, id);
    var ids := SortBy(Enumerate(owned), EventOrder(events));
    ListsSetOnce(ids, owned);
    ids
  }

  function Views(people: map<int, Person>, events: map<int, Event>, ids: seq<int>): (r: seq<EventView>)
    requires forall i :: 0 <= i < |ids| ==> ids[i] in events
    ensures |r| == |ids|
    ensures forall i :: 0 <= i < |ids| ==> r[i] == ViewOfEvent(people, ids[i], events[ids[i]])
  {
    if ids == [] then [] else [ViewOfEvent(people, ids[0], events[ids[0]])] + Views(people, events, ids[1..])
  }

  lemma OwnedViewsFacts(people: map<int, Person>, events: map<int, Event>, caller: int,
                        ids: seq<int>, r: seq<EventView>)
    requires forall id :: id in ids <==> OwnedEvent(events, caller, id)
    requires forall i, j :: 0 <= i < j < |ids| ==> ids[i] != ids[j]
    requires SortedBy(ids, EventOrder(events))
    requires forall i :: 0 <= i < |ids| ==> ids[i] in events
    requires |r| == |ids| && forall i :: 0 <= i < |ids| ==> r[i] == ViewOfEvent(people, ids[i], events[ids[i]])
    ensures forall i :: 0 <= i < |r| ==>
              OwnedEvent(events, caller, r[i].id) && r[i] == ViewOfEvent(people, r[i].id, events[r[i].id])
    ensures forall id :: OwnedEvent(events, caller, id) ==> exists i :: 0 <= i < |r| && r[i].id == id
    ensures forall i, j :: 0 <= i < j < |r| ==> r[i].id != r[j].id
    ensures forall i, j :: 0 <= i < j < |r| ==> EventBefore(r[i].eventDate, r[i].id, r[j].eventDate, r[j].id)
  {
    assert forall i :: 0 <= i < |r| ==> r[i].id == ids[i] && r[i].eventDate == DateOf(events, ids[i]);
    assert forall i :: 0 <= i < |ids| ==> ids[i] in ids;
    forall i, j | 0 <= i < j < |r| ensures EventBefore(r[i].eventDate, r[i].id, r[j].eventDate, r[j].id) {
      assert EventOrder(events)(ids[i], ids[j]);
    }
    forall id | OwnedEvent(events, caller, id) ensures exists i :: 0 <= i < |r| && r[i].id == id {
      var i :| 0 <= i < |ids| && ids[i] == id;
      assert r[i].id == id;
    }
  }

  /**
   * list_events: each of the caller's events exactly once, dated events
   * first, latest first, ties by highest id.
   */
  function ListEvents(people: map<int, Person>, events: map<int, Event>, caller: int): (r: seq<EventView>)
    ensures forall i :: 0 <= i < |r| ==>
              OwnedEvent(events, caller, r[i].id) && r[i] == ViewOfEvent(people, r[i].id, events[r[i].id])
    ensures forall id :: OwnedEvent(events, caller, id) ==> exists i :: 0 <= i < |r| && r[i].id == id
    ensures forall i, j :: 0 <= i < j < |r| ==> r[i].id != r[j].id
    ensures forall i, j :: 0 <= i < j < |r| ==> EventBefore(r[i].eventDate, r[i].id, r[j].eventDate, r[j].id)
  {
    var ids := OwnedIds(events, caller);
    assert forall i :: 0 <= i < |ids| ==> ids[i] in ids;
    var r := Views(people, events, ids);
    OwnedViewsFacts(people, events, caller, ids, r);
    r
  }

  /** Two different rows of the listing are never in both orders: the listing has no ties. */
  lemma ListEventsStrict(people: map<int, Person>, events: map<int, Event>, caller: int)
    ensures var r := ListEvents(people, events, caller);
            forall i, j :: 0 <= i < j < |r| ==> !EventBefore(r[j].eventDate, r[j].id, r[i].eventDate, r[i].id)
  {
    var r := ListEvents(people, events, caller);
    forall i, j | 0 <= i < j < |r| ensures !EventBefore(r[j].eventDate, r[j].id, r[i].eventDate, r[i].id) {
      EventBeforeIsTotalOrder(r[i].eventDate, r[i].id, r[j].eventDate, r[j].id, r[j].eventDate, r[j].id);
    }
  }

  /** get_event: the row when it is the caller's, otherwise 404. */
  function GetEvent(people: map<int, Person>, events: map<int, Event>, caller: int, id: int): (r: Result<EventView>)
    ensures r.Ok? <==> OwnedEvent(events, caller, id)
    ensures r.Ok? ==> r.value == ViewOfEvent(people, id, events[id])
    ensures r.Err? ==> r.error == NotFound
  {
    if OwnedEvent(events, caller, id) then Ok(ViewOfEvent(people, id, events[id])) else Err(NotFound)
  }

  /**
   * The join on created_by ignores ownership and deletion: an event may show
   * the name of another user's person, or of a deleted one.
   */
  lemma ForeignPersonNameShown(people: map<int, Person>, events: map<int, Event>, caller: int, id: int)
    requires OwnedEvent(events, caller, id)
    requires events[id].createdBy in people
    requires people[events[id].createdBy].owner != caller || people[events[id].createdBy].isDeleted
    requires DisplayName(people[events[id].createdBy]).Some?
    ensures GetEvent(people, events, caller, id).Ok?
    ensures GetEvent(people, events, caller, id).value.personName == DisplayName(people[events[id].createdBy])
    ensures !LivePerson(people, caller, events[id].createdBy)
  {
  }
}
