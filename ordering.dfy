/**
 The order in which a JavaScript `for (k in boxes)` loop visits the live
 boxes: integer keys in ascending order.
 */
module Ordering {

  /** A set that is not empty has a member. */
  lemma NonEmpty(s: set<int>)
    requires s != {}
    ensures exists x :: x in s
  {
    if forall x :: x !in s {
      assert false;
    }
  }

  /** Every non-empty finite set of integers has a least element. */
  lemma {:induction false} MinExists(s: set<int>)
    requires s != {}
    ensures exists m :: m in s && forall j :: j in s ==> m <= j
  {
    NonEmpty(s);
    var x :| x in s;
    if s - {x} != {} {
      MinExists(s - {x});
      var m :| m in s - {x} && forall j :: j in s - {x} ==> m <= j;
      var least := if x < m then x else m;
      forall j | j in s
        ensures least <= j
      {
        if j != x {
          assert j in s - {x};
        }
      }
    } else {
      forall j | j in s
        ensures x <= j
      {
        assert j !in s - {x};
      }
    }
  }

  ghost function Min(s: set<int>): (m: int)
    requires s != {}
    ensures m in s && forall j :: j in s ==> m <= j
  {
    MinExists(s);
    var m :| m in s && forall j :: j in s ==> m <= j;
    m
  }

  ghost predicate Ascending(keys: seq<int>)
  {
    forall i, j :: 0 <= i < j < |keys| ==> keys[i] < keys[j]
  }

  /** The keys of `s` in the order a `for ... in` loop visits them. */
  ghost function SortedKeys(s: set<int>): (keys: seq<int>)
    ensures forall i :: 0 <= i < |keys| ==> keys[i] in s
    ensures Ascending(keys)
    decreases s
  {
    if s == {} then []
    else
      var m := Min(s);
      var rest := SortedKeys(s - {m});
      assert forall i :: 0 <= i < |rest| ==> m < rest[i];
      [m] + rest
  }

  /** Every key of the set is visited. */
  lemma {:induction false} SortedKeysComplete(s: set<int>, k: int)
    requires k in s
    ensures exists i :: 0 <= i < |SortedKeys(s)| && SortedKeys(s)[i] == k
    decreases s
  {
    var m := Min(s);
    var keys := SortedKeys(s);
    assert keys == [m] + SortedKeys(s - {m});
    if k == m {
      assert keys[0] == k;
    } else {
      SortedKeysComplete(s - {m}, k);
      var i :| 0 <= i < |SortedKeys(s - {m})| && SortedKeys(s - {m})[i] == k;
      assert keys[i + 1] == k;
    }
  }

  /** Taking the least key off the set takes the first key off the sequence. */
  lemma SortedKeysStep(s: set<int>, m: int)
    requires m in s && forall j :: j in s ==> m <= j
    ensures SortedKeys(s) == [m] + SortedKeys(s - {m})
  {
  }
}
