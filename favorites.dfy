/**
 * The favorite-cities list: an ordered list of city names that the favorite button
 * toggles, re-saved whole to browser storage after every toggle.
 */
module Favorites {
  import opened Wrappers

  /** No city appears twice. */
  ghost predicate NoDuplicates(list: seq<string>)
  {
    forall i, j :: 0 <= i < j < |list| ==> list[i] != list[j]
  }

  /** `list.indexOf(city)`: the first position holding `city`, or -1 when there is none. */
  function IndexOf(list: seq<string>, city: string): (r: int)
    ensures -1 <= r < |list|
    ensures r == -1 <==> city !in list
    ensures r >= 0 ==> list[r] == city && forall j :: 0 <= j < r ==> list[j] != city
  {
    if list == [] then -1
    else if list[0] == city then 0
    else
      var k := IndexOf(list[1..], city);
      assert city in list[1..] ==> city in list;
      assert forall j :: 1 <= j < |list| ==> list[j] == list[1..][j - 1];
      if k == -1 then -1 else k + 1
  }

  /** The list without the first occurrence of `city`. */
  function RemoveFirst(list: seq<string>, city: string): (r: seq<string>)
    requires city in list
    ensures |r| == |list| - 1
    ensures forall x :: x != city ==> (x in r <==> x in list)
  {
    if list[0] == city then
      list[1..]
    else
      assert city in list[1..];
      [list[0]] + RemoveFirst(list[1..], city)
  }

  /** The list after the favorite button is pressed for `city`. */
  function Toggled(list: seq<string>, city: string): (r: seq<string>)
    ensures city in list ==> |r| == |list| - 1 && multiset(r) == multiset(list) - multiset{city}
    ensures city !in list ==> |r| == |list| + 1 && multiset(r) == multiset(list) + multiset{city}
    ensures city !in list ==> r[..|list|] == list && r[|list|] == city
  {
    if city in list then
      RemoveFirstIsSplice(list, city);
      SpliceCount(list, IndexOf(list, city));
      RemoveFirst(list, city)
    else
      list + [city]
  }

  /** The favorites read from storage at startup: nothing stored means no favorites. */
  function Load(stored: Option<seq<string>>): (r: seq<string>)
    ensures stored == None ==> r == []
    ensures stored.Some? ==> r == stored.value
  {
    match stored
    case None => []
    case Some(list) => list
  }

  /** Removing the first occurrence is `splice(indexOf(city), 1)`. */
  lemma {:induction false} RemoveFirstIsSplice(list: seq<string>, city: string)
    requires city in list
    ensures var i := IndexOf(list, city); RemoveFirst(list, city) == list[..i] + list[i + 1..]
    decreases |list|
  {
    if list[0] != city {
      var tail := list[1..];
      assert city in tail;
      RemoveFirstIsSplice(tail, city);
      var k := IndexOf(tail, city);
      assert IndexOf(list, city) == k + 1;
      assert RemoveFirst(list, city) == [list[0]] + (tail[..k] + tail[k + 1..]);
      assert [list[0]] + (tail[..k] + tail[k + 1..]) == list[..k + 1] + list[k + 2..] by {
        assert [list[0]] + tail[..k] == list[..k + 1];
        assert tail[k + 1..] == list[k + 2..];
      }
    }
  }

  /**
   * Toggling a present city removes its first occurrence and keeps the rest in order:
   * one fewer entry, one fewer copy of the city, every other city as often as before.
   */
  lemma ToggledPresent(list: seq<string>, city: string)
    requires city in list
    ensures var i := IndexOf(list, city);
      && Toggled(list, city) == list[..i] + list[i + 1..]
      && |Toggled(list, city)| == |list| - 1
      && multiset(Toggled(list, city)) == multiset(list) - multiset{city}
  {
    RemoveFirstIsSplice(list, city);
    SpliceCount(list, IndexOf(list, city));
  }

  /** Cutting out position `i` removes one copy of the entry there and nothing else. */
  lemma SpliceCount(list: seq<string>, i: int)
    requires 0 <= i < |list|
    ensures multiset(list[..i] + list[i + 1..]) == multiset(list) - multiset{list[i]}
  {
    var before, after := list[..i], list[i + 1..];
    assert list == before + [list[i]] + after;
    assert multiset(list) == multiset(before) + multiset{list[i]} + multiset(after);
    assert multiset(before + after) == multiset(before) + multiset(after);
  }

  /** Toggling an absent city appends it after all others. */
  lemma ToggledAbsent(list: seq<string>, city: string)
    requires city !in list
    ensures Toggled(list, city) == list + [city]
    ensures IndexOf(Toggled(list, city), city) == |list|
  {
  }

  /**
   * Toggling keeps a duplicate-free list duplicate-free, and then the city is a
   * favorite afterwards exactly when it was not before.
   */
  lemma ToggledKeepsNoDuplicates(list: seq<string>, city: string)
    requires NoDuplicates(list)
    ensures NoDuplicates(Toggled(list, city))
    ensures city in Toggled(list, city) <==> city !in list
  {
    if city in list {
      ToggledPresent(list, city);
      var i := IndexOf(list, city);
      var r := Toggled(list, city);
      assert forall k :: 0 <= k < |r| ==> r[k] == if k < i then list[k] else list[k + 1];
      assert city !in r by {
        forall k | 0 <= k < |r| ensures r[k] != city {
          if k >= i { assert list[k + 1] != list[i]; }
        }
      }
    }
  }

  /** Toggling an absent city twice restores the list. */
  lemma ToggleTwiceAbsent(list: seq<string>, city: string)
    requires city !in list
    ensures Toggled(Toggled(list, city), city) == list
  {
    var once := list + [city];
    ToggledPresent(once, city);
    assert IndexOf(once, city) == |list|;
    assert once[..|list|] == list;
  }

  /**
   * Toggling a present city of a duplicate-free list twice moves the city to the
   * end, so the list comes back unchanged only when the city was already last.
   */
  lemma ToggleTwicePresent(list: seq<string>, city: string)
    requires NoDuplicates(list) && city in list
    ensures var i := IndexOf(list, city);
      Toggled(Toggled(list, city), city) == list[..i] + list[i + 1..] + [city]
  {
    ToggledPresent(list, city);
    ToggledKeepsNoDuplicates(list, city);
  }
}
