/** A station card (src/components/StationCard.tsx): whether its station is
    the one playing, and its play/pause and favourite buttons, which act on
    the store. */
module StationCard {
  import opened Wrappers
  import opened Types
  import Lists
  import opened RadioContext

  /** `isCurrentlyPlaying`: the store is playing, and playing this card's
      station (by id). */
  function IsCurrentlyPlaying(store: RadioProvider, station: Station): (b: bool)
    reads store
    ensures store.Valid() ==>
              (b <==> store.Phase() == Playing && store.currentStation.value.id == station.id)
  {
    store.currentStation.Some? && store.currentStation.value.id == station.id && store.isPlaying
  }

  /** At most one card shows as playing among cards with distinct ids. */
  lemma OnlyOneCardPlays(store: RadioProvider, a: Station, b: Station)
    requires IsCurrentlyPlaying(store, a) && IsCurrentlyPlaying(store, b)
    ensures a.id == b.id
  {
  }

  /** `handlePlayPause`: pause when this card's station is the one playing;
      otherwise play this card's station. */
  method HandlePlayPause(store: RadioProvider, station: Station, rejected: bool)
    requires store.Valid()
    modifies store
    ensures store.Valid()
    ensures old(IsCurrentlyPlaying(store, station)) ==>
              && store.Phase() == Paused
              && store.currentStation == old(store.currentStation)
              && store.recentlyPlayed == old(store.recentlyPlayed)
    ensures !old(IsCurrentlyPlaying(store, station)) ==>
              && store.currentStation == Some(station)
              && store.isPlaying == !rejected
              && store.recentlyPlayed == PushRecent(old(store.recentlyPlayed), station)
    ensures !old(IsCurrentlyPlaying(store, station)) && !rejected ==>
              IsCurrentlyPlaying(store, station)
    ensures store.favorites == old(store.favorites) && store.volume == old(store.volume)
  {
    if IsCurrentlyPlaying(store, station) {
      store.PauseStation();
    } else {
      store.PlayStation(station, rejected);
    }
  }

  /** The favourites after the heart button: the station removed when its
      id is a favourite, added otherwise. */
  function ToggleFavorite(favorites: seq<Station>, station: Station): (r: seq<Station>)
    ensures HasId(r, station.id) == !HasId(favorites, station.id)
    ensures forall id :: id != station.id ==> HasId(r, id) == HasId(favorites, id)
    ensures NoDupIds(favorites) ==> NoDupIds(r)
  {
    if HasId(favorites, station.id) then
      var r := WithoutId(favorites, station.id);
      assert forall id :: id != station.id ==> HasId(r, id) == HasId(favorites, id) by {
        forall id | id != station.id ensures HasId(r, id) == HasId(favorites, id) {
          WithoutIdKeepsOthers(favorites, station.id, id);
        }
      }
      r
    else
      var r := AddFavorite(favorites, station);
      assert forall id :: id != station.id ==> HasId(r, id) == HasId(favorites, id) by {
        forall id | id != station.id ensures HasId(r, id) == HasId(favorites, id) {
          assert r == favorites + [station];
          if HasId(r, id) {
            var i :| 0 <= i < |r| && r[i].id == id;
            assert i < |favorites|;
            assert favorites[i].id == id;
          }
          if HasId(favorites, id) {
            var i :| 0 <= i < |favorites| && favorites[i].id == id;
            assert r[i].id == id;
          }
        }
      }
      r
  }

  /** Toggling twice restores membership: a station that was not a
      favourite leaves the list exactly as it was, and one that was ends up
      at the end of the list. */
  lemma ToggleTwice(favorites: seq<Station>, station: Station)
    ensures !HasId(favorites, station.id) ==>
              ToggleFavorite(ToggleFavorite(favorites, station), station) == favorites
    ensures HasId(favorites, station.id) ==>
              ToggleFavorite(ToggleFavorite(favorites, station), station)
                == WithoutId(favorites, station.id) + [station]
  {
    var id := station.id;
    if !HasId(favorites, id) {
      var added := favorites + [station];
      assert ToggleFavorite(favorites, station) == added;
      Lists.FilterAppend(favorites, [station], (s: Station) => s.id != id);
      assert WithoutId([station], id) == [];
      assert WithoutId(favorites, id) == favorites;
    }
  }

  /** `handleFavoriteToggle`: flips whether the station is a favourite and
      leaves every other id's membership as it was. */
  method HandleFavoriteToggle(store: RadioProvider, station: Station)
    requires store.Valid()
    modifies store`favorites
    ensures store.Valid()
    ensures store.favorites == ToggleFavorite(old(store.favorites), station)
    ensures store.IsFavorite(station.id) == !old(store.IsFavorite(station.id))
  {
    if store.IsFavorite(station.id) {
      store.RemoveFromFavorites(station.id);
    } else {
      store.AddToFavorites(station);
    }
  }
}
