/**
 * The `useFavorites` hook: a list of product ids kept in the browser's
 * storage under one key. The list is written back after every change, so
 * the stored copy is the one the next mount reads.
 */
module Favorites {
  import opened Wrappers

  const StorageKey: string := "angora_favorites"

  /** `prev.filter(fav => fav !== id)`. */
  function Removed(s: seq<int>, id: int): (r: seq<int>)
    ensures |r| <= |s|
    ensures forall x :: x in r <==> x in s && x != id
  {
    if s == [] then []
    else if s[0] == id then Removed(s[1..], id)
    else [s[0]] + Removed(s[1..], id)
  }

  /** The filter distributes over concatenation. */
  lemma {:induction false} RemovedConcat(a: seq<int>, b: seq<int>, id: int)
    ensures Removed(a + b, id) == Removed(a, id) + Removed(b, id)
  {
    if a != [] {
      assert (a + b)[1..] == a[1..] + b;
      RemovedConcat(a[1..], b, id);
    } else {
      assert a + b == b;
    }
  }

  /** Removing an id that is not in the list changes nothing. */
  lemma {:induction false} RemovedAbsent(s: seq<int>, id: int)
    requires id !in s
    ensures Removed(s, id) == s
  {
    if s != [] {
      assert id !in s[1..];
      RemovedAbsent(s[1..], id);
    }
  }

  /** Adding an id and removing it again gives the list without that id. */
  lemma AddThenRemove(s: seq<int>, id: int)
    ensures Removed(s + [id], id) == Removed(s, id)
  {
    RemovedConcat(s, [id], id);
    assert Removed([id], id) == [];
  }

  class Hook {
    var favorites: seq<int>
    /** The storage entry under `StorageKey`, `None` when there is none. */
    var stored: Option<seq<int>>

    /** Persisted: the storage holds exactly the list. */
    predicate Saved()
      reads this
    {
      stored == Some(favorites)
    }

    predicate IsFavorite(id: int)
      reads this
    {
      id in favorites
    }

    /** A first render with `saved` in storage; the list starts empty. */
    constructor (saved: Option<seq<int>>)
      ensures favorites == [] && stored == saved
    {
      favorites, stored := [], saved;
    }

    /**
     * The two mount effects: a stored list replaces the empty one, and the
     * list is written back.
     */
    method Mount()
      modifies this
      ensures old(stored).Some? ==> favorites == old(stored).value
      ensures old(stored).None? ==> favorites == old(favorites)
      ensures Saved()
    {
      if stored.Some? {
        favorites := stored.value;
      }
      stored := Some(favorites);
    }

    method Add(id: int)
      modifies this
      ensures favorites == old(favorites) + [id]
      ensures IsFavorite(id) && Saved()
    {
      favorites := favorites + [id];
      stored := Some(favorites);
    }

    method Remove(id: int)
      modifies this
      ensures favorites == Removed(old(favorites), id)
      ensures !IsFavorite(id) && Saved()
    {
      favorites := Removed(favorites, id);
      stored := Some(favorites);
    }

    /** A favourite is removed, any other id is appended; the answer flips. */
    method Toggle(id: int)
      modifies this
      ensures old(IsFavorite(id)) ==> favorites == Removed(old(favorites), id)
      ensures !old(IsFavorite(id)) ==> favorites == old(favorites) + [id]
      ensures IsFavorite(id) == !old(IsFavorite(id))
      ensures forall x :: x != id ==> (IsFavorite(x) <==> old(IsFavorite(x)))
      ensures Saved()
    {
      if id in favorites {
        Remove(id);
      } else {
        Add(id);
      }
    }
  }

  /** Toggling an id that is not a favourite twice restores the list exactly. */
  lemma ToggleTwiceRestores(s: seq<int>, id: int)
    requires id !in s
    ensures Removed(s + [id], id) == s
  {
    AddThenRemove(s, id);
    RemovedAbsent(s, id);
  }
}
