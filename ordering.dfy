/**
 * What an ORDER BY clause promises about the rows a query returns, and an
 * insertion sort that delivers it. Rows are identified by their ids; a
 * comparator on ids says which row may come first.
 */
module Ordering {

  /** le may serve as an ORDER BY: any two rows are comparable, transitively. */
  ghost predicate TotalPreorder(le: (int, int) -> bool) {
    && (forall a, b :: le(a, b) || le(b, a))
    && (forall a, b, c :: le(a, b) && le(b, c) ==> le(a, c))
  }

  predicate SortedBy(s: seq<int>, le: (int, int) -> bool) {
    forall i, j :: 0 <= i < j < |s| ==> le(s[i], s[j])
  }

  /** A sorted sequence stays sorted under a new head that may precede all of it. */
  lemma ConsSorted(y: int, t: seq<int>, le: (int, int) -> bool)
    requires SortedBy(t, le)
    requires forall k :: 0 <= k < |t| ==> le(y, t[k])
    ensures SortedBy([y] + t, le)
  {
  }

  /** In a sorted sequence, the head may precede every element. */
  lemma HeadPrecedes(s: seq<int>, le: (int, int) -> bool, z: int)
    requires TotalPreorder(le) && SortedBy(s, le)
    requires z in s
    ensures le(s[0], z)
  {
    var j :| 0 <= j < |s| && s[j] == z;
    if j == 0 {
      assert le(z, z) || le(z, z);
    }
  }

  /** Puts x into the sorted sequence s, before the first element it may precede. */
  function Insert(x: int, s: seq<int>, le: (int, int) -> bool): (r: seq<int>)
    requires TotalPreorder(le) && SortedBy(s, le)
    ensures SortedBy(r, le)
    ensures multiset(r) == multiset(s) + multiset{x}
  {
    if s == [] then [x]
    else if le(x, s[0]) then
      forall k | 0 <= k < |s| ensures le(x, s[k]) {
        var y, z := s[0], s[k];
        HeadPrecedes(s, le, z);
        assert le(x, y) && le(y, z);
      }
      ConsSorted(x, s, le);
      [x] + s
    else
      var t := Insert(x, s[1..], le);
      assert s == [s[0]] + s[1..];
      forall k | 0 <= k < |t| ensures le(s[0], t[k]) {
        var y, z := s[0], t[k];
        assert z in multiset(t);
        if z == x {
          assert le(x, y) || le(y, x);
        } else {
          assert z in multiset(s[1..]);
          HeadPrecedes(s, le, z);
        }
      }
      ConsSorted(s[0], t, le);
      [s[0]] + t
  }

  /** Orders s by le without adding or dropping any element. */
  function SortBy(s: seq<int>, le: (int, int) -> bool): (r: seq<int>)
    requires TotalPreorder(le)
    ensures SortedBy(r, le)
    ensures multiset(r) == multiset(s)
  {
    if s == [] then []
    else
      assert s == [s[0]] + s[1..];
      Insert(s[0], SortBy(s[1..], le), le)
  }

  predicate IsLeast(s: set<int>, m: int) {
    m in s && forall y :: y in s ==> m <= y
  }

  lemma NonEmptyHasElement(s: set<int>)
    requires s != {}
    ensures exists x :: x in s
  {
    if forall x :: x !in s {
      assert false;
    }
  }

  lemma {:induction false} LeastExists(s: set<int>)
    requires s != {}
    ensures exists m :: IsLeast(s, m)
  {
    NonEmptyHasElement(s);
    var x :| x in s;
    if s == {x} {
      assert IsLeast(s, x);
    } else {
      LeastExists(s - {x});
      var m :| IsLeast(s - {x}, m);
      var k := if x < m then x else m;
      forall y | y in s ensures k <= y {
        if y != x { assert y in s - {x}; }
      }
      assert IsLeast(s, k);
    }
  }

  /** The elements of a finite set of ids in ascending order, each once. */
  function Enumerate(s: set<int>): (r: seq<int>)
    ensures multiset(r) == multiset(s)
    decreases |s|
  {
    if s == {} then []
    else
      LeastExists(s);
      var m :| IsLeast(s, m);
      assert s == (s - {m}) + {m};
      [m] + Enumerate(s - {m})
  }

  /** A sequence with the multiset of a set lists exactly that set, each element once. */
  lemma ListsSetOnce(ids: seq<int>, s: set<int>)
    requires multiset(ids) == multiset(s)
    ensures forall x :: x in ids <==> x in s
    ensures forall i :: 0 <= i < |ids| ==> ids[i] in s
    ensures forall i, j :: 0 <= i < j < |ids| ==> ids[i] != ids[j]
  {
    forall x ensures x in ids <==> x in s {
      assert x in ids <==> x in multiset(ids);
    }
    assert forall i :: 0 <= i < |ids| ==> ids[i] in ids;
    forall i, j | 0 <= i < j < |ids| ensures ids[i] != ids[j] {
      var x := ids[i];
      assert ids == ids[..j] + ids[j..];
      assert x in ids[..j];
      assert multiset(ids)[x] == multiset(ids[..j])[x] + multiset(ids[j..])[x];
      assert multiset(s)[x] <= 1;
    }
  }
}
