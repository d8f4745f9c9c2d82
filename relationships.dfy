/**
 * The read side of the relationship routes and the checks create and update
 * share: both people given, not the same person, a known relation kind, and
 * both people live rows of the caller.
 */
module Relationships {
  import opened Common
  import opened Text
  import opened Schema
  import opened Ordering

  /** The JSON body of a create or update; absent fields are None. */
  datatype RelationshipInput = RelationshipInput(
    person1: Option<int>,
    person2: Option<int>,
    relType: Option<string>,
    details: Option<string>,
    startDate: Option<string>,
    endDate: Option<string>)

  /** `(data.get('type') or '').strip().lower()` */
  function NormalizeType(t: Option<string>): (r: string)
    ensures r == [] || (!IsSpace(r[0]) && !IsSpace(r[|r| - 1]))
    ensures forall k :: 0 <= k < |r| ==> !('A' <= r[k] <= 'Z')
    ensures t.None? ==> r == ""
  {
    StripSpec(t.GetOr(""));
    Lower(Strip(t.GetOr("")))
  }

  /** An empty kind (an untyped relationship) or one of RELATION_TYPES. */
  predicate KnownType(t: string) {
    t == "" || t in RelationTypes
  }

  /** A kind already in stored form (no blank at either end, no capital) is kept as given. */
  lemma {:induction false} NormalizeKeepsCanonical(t: string)
    requires t == [] || (!IsSpace(t[0]) && !IsSpace(t[|t| - 1]))
    requires forall k :: 0 <= k < |t| ==> !('A' <= t[k] <= 'Z')
    ensures NormalizeType(Some(t)) == t
  {
    assert TrimStart(t) == t;
    assert TrimEnd(t) == t;
    assert Strip(t) == t;
    var l := Lower(t);
    assert forall k :: 0 <= k < |t| ==> l[k] == t[k];
  }

  /** Normalising twice is normalising once. */
  lemma NormalizeIdempotent(t: Option<string>)
    ensures NormalizeType(Some(NormalizeType(t))) == NormalizeType(t)
  {
    NormalizeKeepsCanonical(NormalizeType(t));
  }

  /** Each of RELATION_TYPES passes the check exactly as written. */
  lemma RelationTypesAccepted(k: string)
    requires k in RelationTypes
    ensures NormalizeType(Some(k)) == k && KnownType(NormalizeType(Some(k)))
  {
    NormalizeKeepsCanonical(k);
  }

  /** `SELECT COUNT(*) FROM People WHERE id IN (?, ?) AND user_id = ? AND is_deleted = 0` */
  function CountLive(people: map<int, Person>, caller: int, a: int, b: int): nat {
    |set id | id in {a, b} && LivePerson(people, caller, id)|
  }

  /** For two different ids, the count is 2 exactly when both are live people of the caller. */
  lemma CountLiveIsTwo(people: map<int, Person>, caller: int, a: int, b: int)
    requires a != b
    ensures CountLive(people, caller, a, b) == 2 <==> LivePerson(people, caller, a) && LivePerson(people, caller, b)
  {
    var found := set id | id in {a, b} && LivePerson(people, caller, id);
    if LivePerson(people, caller, a) && LivePerson(people, caller, b) {
      assert found == {a, b};
    } else if LivePerson(people, caller, a) {
      assert found == {a};
    } else if LivePerson(people, caller, b) {
      assert found == {b};
    } else {
      assert found == {};
    }
  }

  /**
   * The checks of create_relationship, in their order; on
   * success, the kind to store.
   */
  function CheckRelationship(people: map<int, Person>, caller: int, input: RelationshipInput): (r: Result<string>)
    ensures r.Err? ==> r.error.BadRequest?
    ensures r == Err(BadRequest(MissingPeople)) <==> !PresentId(input.person1) || !PresentId(input.person2)
    ensures r == Err(BadRequest(SelfRelationship)) <==>
              PresentId(input.person1) && PresentId(input.person2) && input.person1 == input.person2
    ensures r == Err(BadRequest(InvalidRelationType)) <==>
              PresentId(input.person1) && PresentId(input.person2) && input.person1 != input.person2
              && !KnownType(NormalizeType(input.relType))
    ensures r == Err(BadRequest(PeopleNotOwned)) <==>
              && PresentId(input.person1) && PresentId(input.person2) && input.person1 != input.person2
              && KnownType(NormalizeType(input.relType))
              && !(LivePerson(people, caller, input.person1.value) && LivePerson(people, caller, input.person2.value))
    ensures r.Ok? <==>
              && PresentId(input.person1) && PresentId(input.person2) && input.person1 != input.person2
              && KnownType(NormalizeType(input.relType))
              && LivePerson(people, caller, input.person1.value)
              && LivePerson(people, caller, input.person2.value)
    ensures r.Ok? ==> r.value == NormalizeType(input.relType)
  {
    var t := NormalizeType(input.relType);
    if !PresentId(input.person1) || !PresentId(input.person2) then Err(BadRequest(MissingPeople))
    else if input.person1 == input.person2 then Err(BadRequest(SelfRelationship))
    else if t != "" && t !in RelationTypes then Err(BadRequest(InvalidRelationType))
    else
      var a, b := input.person1.value, input.person2.value;
      CountLiveIsTwo(people, caller, a, b);
      if CountLive(people, caller, a, b) != 2 then Err(BadRequest(PeopleNotOwned))
      else Ok(t)
  }

  /**
   * The ownership test of get, update and delete: the JOIN on both people and
   * their owner, without the is_deleted filter.
   */
  predicate Visible(people: map<int, Person>, relationships: map<int, Relationship>, caller: int, id: int) {
    && id in relationships
    && relationships[id].person1 in people && people[relationships[id].person1].owner == caller
    && relationships[id].person2 in people && people[relationships[id].person2].owner == caller
  }

  /** The filter of get_relationships: both people the caller's and not deleted. */
  predicate Listed(people: map<int, Person>, relationships: map<int, Relationship>, caller: int, id: int) {
    && id in relationships
    && LivePerson(people, caller, relationships[id].person1)
    && LivePerson(people, caller, relationships[id].person2)
  }

  function NameOf(people: map<int, Person>, id: int): Option<string> {
    if id in people then DisplayName(people[id]) else None
  }

  function ViewOfRelationship(people: map<int, Person>, id: int, r: Relationship): RelationshipView
  {
    RelationshipView(id, r.person1, NameOf(people, r.person1), r.person2, NameOf(people, r.person2),
                     r.relType, r.details, r.startDate, r.endDate, r.createdAt, r.updatedAt)
  }

  /** ORDER BY r.created_at DESC on ids (a missing id sorts as created at time 0). */
  function NewestFirst(relationships: map<int, Relationship>): (int, int) -> bool {
    (a: int, b: int) =>
      (if a in relationships then relationships[a].createdAt else 0)
        >= (if b in relationships then relationships[b].createdAt else 0)
  }

  lemma NewestFirstIsTotalPreorder(relationships: map<int, Relationship>)
    ensures TotalPreorder(NewestFirst(relationships))
  {
  }

  function ListedIds(people: map<int, Person>, relationships: map<int, Relationship>, caller: int): (ids: seq<int>)
    ensures forall id :: id in ids <==> Listed(people, relationships, caller, id)
    ensures forall i :: 0 <= i < |ids| ==> ids[i] in relationships
    ensures forall i, j :: 0 <= i < j < |ids| ==> ids[i] != ids[j]
    ensures SortedBy(ids, NewestFirst(relationships))
  {
    NewestFirstIsTotalPreorder(relationships);
    var listed := set id | id in relationships && Listed(people, relationships, caller, id);
    var ids := SortBy(Enumerate(listed), NewestFirst(relationships));
    ListsSetOnce(ids, listed);
    ids
  }

  function Views(people: map<int, Person>, relationships: map<int, Relationship>, ids: seq<int>): (r: seq<RelationshipView>)
    requires forall i :: 0 <= i < |ids| ==> ids[i] in relationships
    ensures |r| == |ids|
    ensures forall i :: 0 <= i < |ids| ==> r[i] == ViewOfRelationship(people, ids[i], relationships[ids[i]])
  {
    if ids == [] then []
    else [ViewOfRelationship(people, ids[0], relationships[ids[0]])] + Views(people, relationships, ids[1..])
  }

  lemma NewestFirstOrdered(relationships: map<int, Relationship>, ids: seq<int>, r: seq<RelationshipView>)
    requires forall i :: 0 <= i < |ids| ==> ids[i] in relationships
    requires SortedBy(ids, NewestFirst(relationships))
    requires |r| == |ids| && forall i :: 0 <= i < |ids| ==> r[i].createdAt == relationships[ids[i]].createdAt
    ensures forall i, j :: 0 <= i < j < |r| ==> r[i].createdAt >= r[j].createdAt
  {
    forall i, j | 0 <= i < j < |r| ensures r[i].createdAt >= r[j].createdAt {
      assert NewestFirst(relationships)(ids[i], ids[j]);
    }
  }

  /**
   * get_relationships: every relationship whose two people are live rows of
   * the caller, exactly once, newest first, with both display names.
   */
  function ListRelationships(people: map<int, Person>, relationships: map<int, Relationship>, caller: int): (r: seq<RelationshipView>)
    ensures forall i :: 0 <= i < |r| ==>
              Listed(people, relationships, caller, r[i].id)
              && r[i] == ViewOfRelationship(people, r[i].id, relationships[r[i].id])
    ensures forall id :: Listed(people, relationships, caller, id) ==> exists i :: 0 <= i < |r| && r[i].id == id
    ensures forall i, j :: 0 <= i < j < |r| ==> r[i].id != r[j].id
    ensures forall i, j :: 0 <= i < j < |r| ==> r[i].createdAt >= r[j].createdAt
  {
    var ids := ListedIds(people, relationships, caller);
    var r := Views(people, relationships, ids);
    ListedViewsFacts(people, relationships, caller, ids, r);
    r
  }

  lemma ListedViewsFacts(people: map<int, Person>, relationships: map<int, Relationship>, caller: int,
                         ids: seq<int>, r: seq<RelationshipView>)
    requires forall id :: id in ids <==> Listed(people, relationships, caller, id)
    requires forall i, j :: 0 <= i < j < |ids| ==> ids[i] != ids[j]
    requires SortedBy(ids, NewestFirst(relationships))
    requires forall i :: 0 <= i < |ids| ==> ids[i] in relationships
    requires |r| == |ids| && forall i :: 0 <= i < |ids| ==> r[i] == ViewOfRelationship(people, ids[i], relationships[ids[i]])
    ensures forall i :: 0 <= i < |r| ==>
              Listed(people, relationships, caller, r[i].id)
              && r[i] == ViewOfRelationship(people, r[i].id, relationships[r[i].id])
    ensures forall id :: Listed(people, relationships, caller, id) ==> exists i :: 0 <= i < |r| && r[i].id == id
    ensures forall i, j :: 0 <= i < j < |r| ==> r[i].id != r[j].id
    ensures forall i, j :: 0 <= i < j < |r| ==> r[i].createdAt >= r[j].createdAt
  {
    assert forall i :: 0 <= i < |r| ==> r[i].id == ids[i];
    NewestFirstOrdered(relationships, ids, r);
    ListedViewsComplete(people, relationships, caller, ids, r);
    assert forall i :: 0 <= i < |ids| ==> ids[i] in ids;
  }

  lemma ListedViewsComplete(people: map<int, Person>, relationships: map<int, Relationship>, caller: int,
                            ids: seq<int>, r: seq<RelationshipView>)
    requires forall id :: id in ids <==> Listed(people, relationships, caller, id)
    requires |r| == |ids| && forall i :: 0 <= i < |ids| ==> r[i].id == ids[i]
    ensures forall id :: Listed(people, relationships, caller, id) ==> exists i :: 0 <= i < |r| && r[i].id == id
  {
    forall id | Listed(people, relationships, caller, id) ensures exists i :: 0 <= i < |r| && r[i].id == id {
      var i :| 0 <= i < |ids| && ids[i] == id;
      assert r[i].id == id;
    }
  }

  /** get_relationship: found when both people are the caller's, deleted or not. */
  function GetRelationship(people: map<int, Person>, relationships: map<int, Relationship>, caller: int, id: int): (r: Result<RelationshipView>)
    ensures r.Ok? <==> Visible(people, relationships, caller, id)
    ensures r.Ok? ==> r.value == ViewOfRelationship(people, id, relationships[id])
    ensures r.Err? ==> r.error == NotFound
  {
    if Visible(people, relationships, caller, id) then Ok(ViewOfRelationship(people, id, relationships[id]))
    else Err(NotFound)
  }

  /**
   * The list and the single read disagree once a person is soft-deleted: the
   * relationship leaves the list but is still returned by id.
   */
  lemma DeletedEndpointStillReadable(people: map<int, Person>, relationships: map<int, Relationship>, caller: int, id: int)
    requires Visible(people, relationships, caller, id)
    requires people[relationships[id].person1].isDeleted || people[relationships[id].person2].isDeleted
    ensures GetRelationship(people, relationships, caller, id).Ok?
    ensures forall i :: 0 <= i < |ListRelationships(people, relationships, caller)| ==>
              ListRelationships(people, relationships, caller)[i].id != id
  {
  }

  /** Every listed relationship is also readable by id. */
  lemma ListedIsVisible(people: map<int, Person>, relationships: map<int, Relationship>, caller: int, id: int)
    requires Listed(people, relationships, caller, id)
    ensures Visible(people, relationships, caller, id)
  {
  }
}
