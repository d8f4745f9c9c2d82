/**
 * The read side of the people routes (get_all_people, get_person), the
 * create check, and the order of the people list:
 * ORDER BY family_name, given_name, NULLs first.
 */
module People {
  import opened Common
  import opened Text
  import opened Schema
  import opened Ordering

  /** SQLite's ascending order on a nullable TEXT column: NULL first, then by collation. */
  predicate NullsFirstLe(a: Option<string>, b: Option<string>) {
    match (a, b)
    case (None, _) => true
    case (Some(_), None) => false
    case (Some(x), Some(y)) => LexLe(x, y)
  }

  lemma NullsFirstIsTotalOrder(a: Option<string>, b: Option<string>, c: Option<string>)
    ensures NullsFirstLe(a, b) || NullsFirstLe(b, a)
    ensures NullsFirstLe(a, b) && NullsFirstLe(b, a) ==> a == b
    ensures NullsFirstLe(a, b) && NullsFirstLe(b, c) ==> NullsFirstLe(a, c)
  {
    if a.Some? && b.Some? {
      LexLeTotal(a.value, b.value);
      if LexLe(a.value, b.value) && LexLe(b.value, a.value) {
        LexLeAntisymmetric(a.value, b.value);
      }
      if c.Some? && LexLe(a.value, b.value) && LexLe(b.value, c.value) {
        LexLeTransitive(a.value, b.value, c.value);
      }
    }
  }

  /** ORDER BY family_name, given_name on two rows. */
  predicate NameLe(p: PersonFields, q: PersonFields) {
    || (NullsFirstLe(p.familyName, q.familyName) && p.familyName != q.familyName)
    || (p.familyName == q.familyName && NullsFirstLe(p.givenName, q.givenName))
  }

  /** The same order on ids; an id missing from the table sorts as a row of NULLs. */
  function PersonOrder(people: map<int, Person>): (int, int) -> bool {
    (a: int, b: int) =>
      var p := if a in people then people[a].fields else PersonFields(None, None, None, None, None, None, None, None, None);
      var q := if b in people then people[b].fields else PersonFields(None, None, None, None, None, None, None, None, None);
      NameLe(p, q)
  }

  lemma NameLeIsTotalPreorder(p: PersonFields, q: PersonFields, r: PersonFields)
    ensures NameLe(p, q) || NameLe(q, p)
    ensures NameLe(p, q) && NameLe(q, r) ==> NameLe(p, r)
  {
    NullsFirstIsTotalOrder(p.familyName, q.familyName, r.familyName);
    NullsFirstIsTotalOrder(q.familyName, r.familyName, p.familyName);
    NullsFirstIsTotalOrder(p.givenName, q.givenName, r.givenName);
  }

  lemma PersonOrderIsTotalPreorder(people: map<int, Person>)
    ensures TotalPreorder(PersonOrder(people))
  {
    var le := PersonOrder(people);
    var none := PersonFields(None, None, None, None, None, None, None, None, None);
    forall a, b, c
      ensures le(a, b) || le(b, a)
      ensures le(a, b) && le(b, c) ==> le(a, c)
    {
      NameLeIsTotalPreorder(
        if a in people then people[a].fields else none,
        if b in people then people[b].fields else none,
        if c in people then people[c].fields else none);
    }
  }

  function ViewOfPerson(id: int, p: Person): (v: PersonView)
    ensures v.id == id && v.fields == p.fields
  {
    PersonView(id, p.fields, p.createdAt, p.updatedAt)
  }

  /** The ids get_all_people selects: WHERE is_deleted = 0 AND user_id = caller. */
  function LiveIds(people: map<int, Person>, caller: int): (ids: set<int>)
    ensures forall id :: id in ids <==> LivePerson(people, caller, id)
  {
    set id | id in people && LivePerson(people, caller, id)
  }

  /** The ids get_all_people returns, in the order it returns them. */
  function ListedPeopleIds(people: map<int, Person>, caller: int): (ids: seq<int>)
    ensures forall id :: id in ids <==> LivePerson(people, caller, id)
    ensures forall i, j :: 0 <= i < j < |ids| ==> ids[i] != ids[j]
    ensures SortedBy(ids, PersonOrder(people))
  {
    PersonOrderIsTotalPreorder(people);
    var live := LiveIds(people, caller);
    var ids := SortBy(Enumerate(live), PersonOrder(people));
    ListsSetOnce(ids, live);
    ids
  }

  /** Each id's row, as the SELECT projects it. */
  function Views(people: map<int, Person>, ids: seq<int>): (r: seq<PersonView>)
    requires forall i :: 0 <= i < |ids| ==> ids[i] in people
    ensures |r| == |ids|
    ensures forall i :: 0 <= i < |ids| ==> r[i] == ViewOfPerson(ids[i], people[ids[i]])
  {
    if ids == [] then [] else [ViewOfPerson(ids[0], people[ids[0]])] + Views(people, ids[1..])
  }

  /**
   * get_all_people: every live person of the caller exactly once, ordered by
   * family name, then given name.
   */
  function ListPeople(people: map<int, Person>, caller: int): (r: seq<PersonView>)
    ensures forall i :: 0 <= i < |r| ==>
              LivePerson(people, caller, r[i].id) && r[i] == ViewOfPerson(r[i].id, people[r[i].id])
    ensures forall id :: LivePerson(people, caller, id) ==> exists i :: 0 <= i < |r| && r[i].id == id
    ensures forall i, j :: 0 <= i < j < |r| ==> r[i].id != r[j].id
    ensures forall i, j :: 0 <= i < j < |r| ==> NameLe(r[i].fields, r[j].fields)
  {
    var ids := ListedPeopleIds(people, caller);
    assert forall i :: 0 <= i < |ids| ==> ids[i] in ids;
    var r := Views(people, ids);
    ListedViewsFacts(people, caller, ids, r);
    r
  }

  /** What the listed ids promise carries over to the rows projected from them. */
  lemma ListedViewsFacts(people: map<int, Person>, caller: int, ids: seq<int>, r: seq<PersonView>)
    requires forall id :: id in ids <==> LivePerson(people, caller, id)
    requires forall i, j :: 0 <= i < j < |ids| ==> ids[i] != ids[j]
    requires SortedBy(ids, PersonOrder(people))
    requires forall i :: 0 <= i < |ids| ==> ids[i] in people
    requires |r| == |ids| && forall i :: 0 <= i < |ids| ==> r[i] == ViewOfPerson(ids[i], people[ids[i]])
    ensures forall i :: 0 <= i < |r| ==>
              LivePerson(people, caller, r[i].id) && r[i] == ViewOfPerson(r[i].id, people[r[i].id])
    ensures forall id :: LivePerson(people, caller, id) ==> exists i :: 0 <= i < |r| && r[i].id == id
    ensures forall i, j :: 0 <= i < j < |r| ==> r[i].id != r[j].id
    ensures forall i, j :: 0 <= i < j < |r| ==> NameLe(r[i].fields, r[j].fields)
  {
    assert forall i :: 0 <= i < |r| ==> r[i].id == ids[i];
    assert forall i :: 0 <= i < |ids| ==> ids[i] in ids;
    ListPeopleOrdered(people, ids, r);
    forall id | LivePerson(people, caller, id) ensures exists i :: 0 <= i < |r| && r[i].id == id {
      var i :| 0 <= i < |ids| && ids[i] == id;
      assert r[i].id == id;
    }
  }

  lemma ListPeopleOrdered(people: map<int, Person>, ids: seq<int>, r: seq<PersonView>)
    requires forall i :: 0 <= i < |ids| ==> ids[i] in people
    requires SortedBy(ids, PersonOrder(people))
    requires |r| == |ids| && forall i :: 0 <= i < |ids| ==> r[i] == ViewOfPerson(ids[i], people[ids[i]])
    ensures forall i, j :: 0 <= i < j < |r| ==> NameLe(r[i].fields, r[j].fields)
  {
    forall i, j | 0 <= i < j < |r| ensures NameLe(r[i].fields, r[j].fields) {
      assert PersonOrder(people)(ids[i], ids[j]);
    }
  }

  /** get_person: the row if it is live and the caller's, and one 404 for every other case. */
  function GetPerson(people: map<int, Person>, caller: int, id: int): (r: Result<PersonView>)
    ensures r.Ok? <==> LivePerson(people, caller, id)
    ensures r.Ok? ==> r.value == ViewOfPerson(id, people[id])
    ensures r.Err? ==> r.error == NotFound
  {
    if LivePerson(people, caller, id) then Ok(ViewOfPerson(id, people[id])) else Err(NotFound)
  }

  /** A soft-deleted person is gone from both the list and the single-person read. */
  lemma DeletedPersonHidden(people: map<int, Person>, caller: int, id: int)
    requires id in people && people[id].isDeleted
    ensures GetPerson(people, caller, id) == Err(NotFound)
    ensures forall i :: 0 <= i < |ListPeople(people, caller)| ==> ListPeople(people, caller)[i].id != id
  {
  }

  /** create_person's check: both names present and non-empty (other fields are not checked). */
  predicate NamesGiven(fields: PersonFields) {
    Present(fields.givenName) && Present(fields.familyName)
  }
}
