/** The Favorites page (src/pages/Favorites.tsx): the search box that
    narrows the favourites and the "Clear All" action, which removes the
    favourites one by one through the store. */
module FavoritesPage {
  import opened Types
  import Lists
  import Text
  import RadioContext

  /** A favourite matches the search term when the term appears, ignoring
      case, in its name, its country or one of its tags. */
  ghost predicate Matches(s: Station, term: string)
  {
    || Text.AppearsIgnoringCase(term, s.name)
    || Text.AppearsIgnoringCase(term, s.country)
    || exists t :: t in s.tags && Text.AppearsIgnoringCase(term, t)
  }

  /** The filter callback of `filteredFavorites`. */
  function MatchesTerm(s: Station, term: string): (b: bool)
    ensures b <==> Matches(s, term)
    ensures term == "" ==> b
  {
    || Text.IncludesIgnoringCase(s.name, term)
    || Text.IncludesIgnoringCase(s.country, term)
    || exists t :: t in s.tags && Text.IncludesIgnoringCase(t, term)
  }

  /** `filteredFavorites`: the matching favourites, in their order; all of
      them for an empty term. */
  function FilteredFavorites(favorites: seq<Station>, term: string): (r: seq<Station>)
    ensures Lists.IsSubseq(r, favorites)
    ensures forall s :: s in r <==> s in favorites && Matches(s, term)
    ensures forall s :: multiset(r)[s] == if Matches(s, term) then multiset(favorites)[s] else 0
    ensures term == "" ==> r == favorites
    ensures NoDupIds(favorites) ==> NoDupIds(r)
  {
    var keep := (s: Station) => MatchesTerm(s, term);
    var r := Lists.Filter(favorites, keep);
    assert forall s :: multiset(r)[s] == if Matches(s, term) then multiset(favorites)[s] else 0 by {
      forall s ensures multiset(r)[s] == if Matches(s, term) then multiset(favorites)[s] else 0 {
        Lists.FilterCount(favorites, keep, s);
      }
    }
    assert NoDupIds(favorites) ==> NoDupIds(r) by {
      if NoDupIds(favorites) {
        SubseqNoDupIds(r, favorites);
      }
    }
    r
  }

  class FavoritesView {
    var searchTerm: string
    var showConfirmDelete: bool

    constructor ()
      ensures searchTerm == "" && !showConfirmDelete
    {
      searchTerm := "";
      showConfirmDelete := false;
    }

    /** The "Clear All" button: ask for confirmation. */
    method RequestClear()
      modifies this`showConfirmDelete
      ensures showConfirmDelete
    {
      showConfirmDelete := true;
    }

    /** `clearAllFavorites`: remove every favourite of a snapshot of the list,
        one id at a time, and close the confirmation. The list ends empty;
        the rest of the store is untouched. */
    method ClearAllFavorites(store: RadioContext.RadioProvider)
      requires store.Valid()
      modifies this`showConfirmDelete, store`favorites
      ensures store.Valid()
      ensures store.favorites == []
      ensures forall s :: s in old(store.favorites) ==> !store.IsFavorite(s.id)
      ensures !showConfirmDelete
    {
      var snapshot := store.favorites;
      Lists.SubseqRefl(snapshot);
      var i := 0;
      while i < |snapshot|
        invariant 0 <= i <= |snapshot|
        invariant store.Valid()
        invariant Lists.IsSubseq(store.favorites, snapshot[i..])
      {
        assert snapshot[i..] == [snapshot[i]] + snapshot[i + 1..];
        ghost var before := store.favorites;
        store.RemoveFromFavorites(snapshot[i].id);
        Lists.SubseqTransitive(store.favorites, before, snapshot[i..]);
        Lists.SubseqDropHead(store.favorites, snapshot[i], snapshot[i + 1..]);
        i := i + 1;
      }
      assert snapshot[i..] == [];
      showConfirmDelete := false;
    }
  }
}
