/** The list logic behind the favourite locations: the stored list is a
    sequence of location names; toggling removes the first occurrence of a
    name or appends it, and removing splices out the first occurrence. */
module Favorites {

  /** `list.indexOf(name)`: the first index holding `name`, or -1. */
  function IndexOf(list: seq<string>, name: string): (i: int)
    ensures -1 <= i < |list|
    ensures i == -1 <==> name !in list
    ensures i != -1 ==> list[i] == name && name !in list[..i]
  {
    if list == [] then -1
    else if list[0] == name then 0
    else
      var k := IndexOf(list[1..], name);
      assert k != -1 ==> list[..k + 1] == [list[0]] + list[1..][..k];
      if k == -1 then -1 else k + 1
  }

  /** The list with the entry at `i` spliced out (`list.splice(i, 1)`). */
  function SpliceOut(list: seq<string>, i: int): seq<string>
    requires 0 <= i < |list|
  {
    list[..i] + list[i + 1..]
  }

  /** The list logic of `removeFavorite(name)`: splice out the first
      occurrence if there is one, otherwise leave the list alone. */
  function RemoveFirst(list: seq<string>, name: string): seq<string> {
    var i := IndexOf(list, name);
    if i > -1 then SpliceOut(list, i) else list
  }

  /** The list logic of `toggleFavorite()` for the name `name`: splice out
      its first occurrence if there is one, otherwise append it. */
  function Toggle(list: seq<string>, name: string): seq<string> {
    var i := IndexOf(list, name);
    if i > -1 then SpliceOut(list, i) else list + [name]
  }

  /** No name occurs twice. */
  predicate NoDuplicates(list: seq<string>) {
    forall i, j :: 0 <= i < j < |list| ==> list[i] != list[j]
  }

  /** Removing a name that is absent changes nothing; removing a present one
      deletes exactly its first occurrence, keeping every other entry in its
      relative order. */
  lemma RemoveFirstSpec(list: seq<string>, name: string)
    ensures name !in list ==> RemoveFirst(list, name) == list
    ensures forall i :: 0 <= i < |list| && list[i] == name && name !in list[..i] ==>
      RemoveFirst(list, name) == list[..i] + list[i + 1..]
    ensures name in list ==> |RemoveFirst(list, name)| == |list| - 1
  {
    var k := IndexOf(list, name);
    forall i | 0 <= i < |list| && list[i] == name && name !in list[..i]
      ensures k == i
    {
    }
  }

  /** Removing takes exactly one copy of the name out of the list's
      multiset of entries, and no copy of any other name. */
  lemma RemoveFirstMultiset(list: seq<string>, name: string)
    ensures multiset(RemoveFirst(list, name)) == multiset(list) - multiset{name}
  {
    var k := IndexOf(list, name);
    if k != -1 {
      assert list == list[..k] + [name] + list[k + 1..];
      assert multiset(list) == multiset(list[..k]) + multiset{name} + multiset(list[k + 1..]);
    }
  }

  /** Toggling removes the first occurrence of a present name (exactly as
      removing it does) and appends an absent one at the end. */
  lemma ToggleSpec(list: seq<string>, name: string)
    ensures name in list ==> Toggle(list, name) == RemoveFirst(list, name)
    ensures name !in list ==> Toggle(list, name) == list + [name]
  {
  }

  /** Toggling an absent name twice restores the original list. */
  lemma ToggleTwiceRestores(list: seq<string>, name: string)
    requires name !in list
    ensures Toggle(Toggle(list, name), name) == list
  {
    var added := list + [name];
    assert added[..|list|] == list;
    assert IndexOf(added, name) == |list|;
  }

  /** Removing a name just added by a toggle restores the original list. */
  lemma RemoveUndoesToggle(list: seq<string>, name: string)
    requires name !in list
    ensures RemoveFirst(Toggle(list, name), name) == list
  {
    ToggleTwiceRestores(list, name);
  }

  /** Removing keeps a list free of duplicates, and the removed name is then
      gone from it. */
  lemma RemovePreservesNoDuplicates(list: seq<string>, name: string)
    requires NoDuplicates(list)
    ensures NoDuplicates(RemoveFirst(list, name))
    ensures name !in RemoveFirst(list, name)
  {
    var k := IndexOf(list, name);
    if k != -1 {
      var r := SpliceOut(list, k);
      forall i, j | 0 <= i < j < |r|
        ensures r[i] != r[j]
      {
        var i', j' := if i < k then i else i + 1, if j < k then j else j + 1;
        assert r[i] == list[i'] && r[j] == list[j'];
      }
      forall i | 0 <= i < |r|
        ensures r[i] != name
      {
        var i' := if i < k then i else i + 1;
        assert r[i] == list[i'];
      }
    }
  }

  /** Toggling keeps a list free of duplicates; afterwards the name is
      present exactly when it was absent before, and every other name is
      present exactly when it was before. */
  lemma TogglePreservesNoDuplicates(list: seq<string>, name: string)
    requires NoDuplicates(list)
    ensures NoDuplicates(Toggle(list, name))
    ensures name in Toggle(list, name) <==> name !in list
    ensures forall other :: other != name ==> (other in Toggle(list, name) <==> other in list)
  {
    var r := Toggle(list, name);
    if name in list {
      RemovePreservesNoDuplicates(list, name);
      RemoveFirstMultiset(list, name);
      forall other | other != name
        ensures other in r <==> other in list
      {
        assert other in multiset(r) <==> other in multiset(list);
      }
    } else {
      assert r == list + [name];
      assert forall i :: 0 <= i < |list| ==> r[i] == list[i];
    }
  }

  /** Starting from no favourites, toggling "Paris" adds it and toggling it
      again removes it. */
  lemma ToggleParisTwice()
    ensures Toggle([], "Paris") == ["Paris"]
    ensures Toggle(["Paris"], "Paris") == []
  {
  }
}
