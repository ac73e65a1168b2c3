/** The selected-photo sets of the two photo grids. Both adapters keep a
    `mutableSetOf<Long>()`, a LinkedHashSet: a set of ids that remembers
    the order in which they were added, here a sequence without
    duplicates. */
module Selection {

  predicate Distinct(s: seq<int>) {
    forall i, j :: 0 <= i < j < |s| ==> s[i] != s[j]
  }

  function Elements(s: seq<int>): set<int> {
    set x | x in s
  }

  /** `remove(id)`: the set without `id`, the others in their order. */
  function Remove(s: seq<int>, id: int): (r: seq<int>)
    ensures forall x :: x in r <==> x in s && x != id
    ensures Distinct(s) ==> Distinct(r)
    ensures id !in s ==> r == s
    ensures Distinct(s) && id in s ==> |r| == |s| - 1
  {
    if s == [] then []
    else if s[0] == id then Remove(s[1..], id)
    else
      assert Distinct(s) ==> s[0] !in s[1..] && Distinct(s[1..]);
      [s[0]] + Remove(s[1..], id)
  }

  /** `toggleSelection(id)` on the set itself: `id` is removed if it was
      there and appended if it was not. */
  function Toggle(s: seq<int>, id: int): (r: seq<int>)
    ensures forall x :: x in r <==> (x in s <==> x != id)
    ensures Distinct(s) ==> Distinct(r)
    ensures Distinct(s) ==> |r| == if id in s then |s| - 1 else |s| + 1
  {
    if id in s then Remove(s, id) else s + [id]
  }

  /** The size of a LinkedHashSet is the number of distinct ids in it. */
  lemma {:induction false} DistinctSize(s: seq<int>)
    requires Distinct(s)
    ensures |Elements(s)| == |s|
  {
    if s != [] {
      var t := s[1..];
      assert Distinct(t);
      DistinctSize(t);
      assert Elements(s) == {s[0]} + Elements(t);
    }
  }

  /** Removing a just-appended id gives back what was there before. */
  lemma {:induction false} RemoveAppended(s: seq<int>, id: int)
    requires id !in s
    ensures Remove(s + [id], id) == s
  {
    if s != [] {
      assert (s + [id])[1..] == s[1..] + [id];
      RemoveAppended(s[1..], id);
    }
  }

  /** Toggling an id twice gives back the same set of ids, and the very same
      sequence when the id was not selected before. */
  lemma ToggleTwice(s: seq<int>, id: int)
    requires Distinct(s)
    ensures Elements(Toggle(Toggle(s, id), id)) == Elements(s)
    ensures id !in s ==> Toggle(Toggle(s, id), id) == s
  {
    if id !in s {
      RemoveAppended(s, id);
    }
  }

  /** An id that was selected comes back at the end: the set is restored
      but not the order `toList()` reports. */
  lemma ToggleTwiceReorders()
    ensures Toggle(Toggle([1, 2], 1), 1) == [2, 1]
  {
    assert Toggle([1, 2], 1) == [2] by {
      assert Remove([1, 2], 1) == Remove([2], 1);
      assert [2][1..] == [];
    }
  }
}
