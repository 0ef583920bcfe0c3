/** Listing a finite set of identifiers in increasing order, as sorting the set does. */
module SortedLists {

  ghost predicate Sorted(ids: seq<nat>) {
    forall i, j :: 0 <= i < j < |ids| ==> ids[i] < ids[j]
  }

  ghost predicate Lists(ids: seq<nat>, elements: set<nat>) {
    Sorted(ids) && forall x :: x in ids <==> x in elements
  }

  lemma {:induction false} ListsNothing(ids: seq<nat>, elements: set<nat>)
    requires Lists(ids, elements)
    ensures ids == [] <==> elements == {}
  {
    assert ids != [] ==> ids[0] in ids;
    assert elements != {} ==> exists x :: x in elements;
  }

  lemma {:induction false} ListsFront(ids: seq<nat>, elements: set<nat>)
    requires Lists(ids, elements) && ids != []
    ensures ids[|ids| - 1] in elements
    ensures Lists(ids[..|ids| - 1], elements - {ids[|ids| - 1]})
  {
    var front, last := ids[..|ids| - 1], ids[|ids| - 1];
    assert ids == front + [last];
    assert forall x :: x in ids <==> x in front || x == last;
    assert last !in front;
  }

  lemma {:induction false} ListSize(ids: seq<nat>, elements: set<nat>)
    requires Lists(ids, elements)
    ensures |ids| == |elements|
  {
    ListsNothing(ids, elements);
    if ids != [] {
      ListsFront(ids, elements);
      ListSize(ids[..|ids| - 1], elements - {ids[|ids| - 1]});
    }
  }

  /** There is only one way to list a set in order. */
  lemma {:induction false} ListedOnce(a: seq<nat>, b: seq<nat>, elements: set<nat>)
    requires Lists(a, elements) && Lists(b, elements)
    ensures a == b
    decreases |a|
  {
    ListsNothing(a, elements);
    ListsNothing(b, elements);
    if a != [] {
      SameLast(a, b, elements);
      ListsFront(a, elements);
      ListsFront(b, elements);
      ListedOnce(a[..|a| - 1], b[..|b| - 1], elements - {a[|a| - 1]});
      assert a == a[..|a| - 1] + [a[|a| - 1]] && b == b[..|b| - 1] + [b[|b| - 1]];
    }
  }

  lemma {:induction false} SameLast(a: seq<nat>, b: seq<nat>, elements: set<nat>)
    requires Lists(a, elements) && Lists(b, elements) && a != [] && b != []
    ensures a[|a| - 1] == b[|b| - 1]
  {
    assert a[|a| - 1] in a && b[|b| - 1] in b;
    assert a[|a| - 1] in b && b[|b| - 1] in a;
  }

  method Least(elements: set<nat>) returns (least: nat)
    requires elements != {}
    ensures least in elements && forall x :: x in elements ==> least <= x
  {
    least :| least in elements;
    var others := elements - {least};
    while others != {}
      invariant others <= elements && least in elements
      invariant forall x :: x in elements ==> x in others || least <= x
      decreases others
    {
      var x :| x in others;
      if x < least {
        least := x;
      }
      others := others - {x};
    }
  }

  method Sort(elements: set<nat>) returns (ids: seq<nat>)
    ensures Lists(ids, elements)
  {
    var rest := elements;
    ids := [];
    while rest != {}
      invariant rest <= elements && Sorted(ids)
      invariant forall x :: x in ids <==> x in elements && x !in rest
      invariant forall k, y :: 0 <= k < |ids| && y in rest ==> ids[k] < y
      decreases rest
    {
      var least := Least(rest);
      ids := ids + [least];
      rest := rest - {least};
    }
  }
}
