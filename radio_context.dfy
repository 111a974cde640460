/** The playback-and-favourites store (`RadioProvider`,
    src/contexts/RadioContext.tsx): the station being played, whether it is
    playing, the volume, the favourites and the recently-played history.

    The list updaters the provider hands to its React setters are pure
    functions here; the provider itself is a class whose methods update
    its fields. The browser audio element is not modelled: whether it
    rejects a `play()` request is a parameter of the operations that may
    request playback. Playing the station object that is already current
    requests nothing in the source, since the playback effect only runs
    when `currentStation` changes (src/contexts/RadioContext.tsx:87): there
    `isPlaying` becomes true while the audio element stays paused, which a
    model without the audio element does not show. */
module RadioContext {
  import opened Wrappers
  import opened Types
  import Lists

  /** The history keeps at most this many stations. */
  const RECENT_LIMIT: nat := 10

  /** Volume the provider starts with. */
  const INITIAL_VOLUME: real := 0.8

  // ---------------------------------------------------------------------
  // List updaters

  /** `list.filter(s => s.id !== id)`. */
  function WithoutId(list: seq<Station>, id: string): (r: seq<Station>)
    ensures !HasId(r, id)
    ensures forall s :: s in r <==> s in list && s.id != id
    ensures Lists.IsSubseq(r, list)
    ensures !HasId(list, id) ==> r == list
    ensures NoDupIds(list) ==> NoDupIds(r)
  {
    var r := Lists.Filter(list, (s: Station) => s.id != id);
    assert forall i :: 0 <= i < |r| ==> r[i].id != id by {
      forall i | 0 <= i < |r| ensures r[i].id != id {
        assert r[i] in r;
      }
    }
    assert NoDupIds(list) ==> NoDupIds(r) by {
      if NoDupIds(list) {
        SubseqNoDupIds(r, list);
      }
    }
    r
  }

  /** Removing an id keeps every other entry as many times as it occurred
      and drops every entry with the id. */
  lemma WithoutIdKeepsCopies(list: seq<Station>, id: string, s: Station)
    ensures multiset(WithoutId(list, id))[s] == if s.id != id then multiset(list)[s] else 0
  {
    Lists.FilterCount(list, (t: Station) => t.id != id, s);
  }

  /** The favourites updater of `addToFavorites`: a station whose id is
      already present leaves the list as it is; otherwise it goes last. */
  function AddFavorite(list: seq<Station>, station: Station): (r: seq<Station>)
    ensures HasId(r, station.id)
    ensures |r| == if HasId(list, station.id) then |list| else |list| + 1
    ensures r[..|list|] == list
    ensures forall i :: |list| <= i < |r| ==> r[i] == station
    ensures NoDupIds(list) ==> NoDupIds(r)
  {
    if HasId(list, station.id) then list
    else
      var r := list + [station];
      assert r[|list|].id == station.id;
      r
  }

  /** The history updater of `playStation`: the station goes to the front,
      any older entry with its id goes, and the list is cut to ten. The
      entries kept after the station are the most recent of the others, in
      their order; only the oldest are dropped. */
  function PushRecent(recent: seq<Station>, station: Station): (r: seq<Station>)
    ensures 1 <= |r| <= RECENT_LIMIT
    ensures r[0] == station
    ensures forall i :: 1 <= i < |r| ==> r[i].id != station.id
    ensures Lists.IsSubseq(r[1..], recent)
    ensures |recent| < RECENT_LIMIT ==>
              forall s :: s in recent && s.id != station.id ==> s in r
    ensures NoDupIds(recent) ==> NoDupIds(r)
    ensures var others := WithoutId(recent, station.id);
      && |r| == (if |others| < RECENT_LIMIT then |others| + 1 else RECENT_LIMIT)
      && r[1..] == others[..|r| - 1]
  {
    var rest := WithoutId(recent, station.id);
    var full := [station] + rest;
    var r := if |full| <= RECENT_LIMIT then full else full[..RECENT_LIMIT];
    var k := |r| - 1;
    assert r == [station] + rest[..k];
    assert r[1..] == rest[..k];
    KeptPrefix(station, rest, recent, k);
    r
  }

  /** The station followed by the first `k` entries of `rest`, a
      subsequence of `recent` without the station's id: none of them has
      that id, they come from `recent` in order, and no id repeats when
      none repeated in `recent`. */
  lemma KeptPrefix(station: Station, rest: seq<Station>, recent: seq<Station>, k: nat)
    requires forall s :: s in rest ==> s.id != station.id
    requires Lists.IsSubseq(rest, recent)
    requires NoDupIds(recent) ==> NoDupIds(rest)
    requires k <= |rest|
    ensures forall i :: 1 <= i < k + 1 ==> ([station] + rest[..k])[i].id != station.id
    ensures Lists.IsSubseq(rest[..k], recent)
    ensures NoDupIds(recent) ==> NoDupIds([station] + rest[..k])
  {
    var r := [station] + rest[..k];
    Lists.PrefixIsSubseq(rest, k);
    Lists.SubseqTransitive(rest[..k], rest, recent);
    forall i | 1 <= i < k + 1 ensures r[i].id != station.id {
      assert r[i] == rest[i - 1];
      assert rest[i - 1] in rest;
    }
    if NoDupIds(recent) {
      forall i, j | 0 <= i < j < |r| ensures r[i].id != r[j].id {
        if i > 0 {
          assert r[i] == rest[i - 1] && r[j] == rest[j - 1];
        }
      }
    }
  }

  // ---------------------------------------------------------------------
  // Facts about the updaters

  /** Adding the same station twice is adding it once. */
  lemma AddFavoriteIdempotent(list: seq<Station>, station: Station)
    ensures AddFavorite(AddFavorite(list, station), station) == AddFavorite(list, station)
  {
  }

  /** Removing one id leaves the membership of every other id as it was. */
  lemma WithoutIdKeepsOthers(list: seq<Station>, id: string, other: string)
    requires other != id
    ensures HasId(WithoutId(list, id), other) == HasId(list, other)
  {
  }

  /** A favourites edit: what `addToFavorites` or `removeFromFavorites`
      does to the list. */
  datatype FavoriteEdit = Add(station: Station) | Remove(id: string)

  function ApplyEdits(list: seq<Station>, edits: seq<FavoriteEdit>): seq<Station>
    decreases |edits|
  {
    if edits == [] then list
    else
      var next := match edits[0]
        case Add(s) => AddFavorite(list, s)
        case Remove(id) => WithoutId(list, id);
      ApplyEdits(next, edits[1..])
  }

  /** Any run of adds and removes from a list without duplicate ids keeps
      it without duplicate ids. */
  lemma {:induction false} EditsKeepNoDupIds(list: seq<Station>, edits: seq<FavoriteEdit>)
    requires NoDupIds(list)
    ensures NoDupIds(ApplyEdits(list, edits))
    decreases |edits|
  {
    if edits != [] {
      var next := match edits[0]
        case Add(s) => AddFavorite(list, s)
        case Remove(id) => WithoutId(list, id);
      EditsKeepNoDupIds(next, edits[1..]);
    }
  }

  /** The history after playing `plays` in order. */
  function PlayAll(recent: seq<Station>, plays: seq<Station>): seq<Station>
    decreases |plays|
  {
    if plays == [] then recent else PlayAll(PushRecent(recent, plays[0]), plays[1..])
  }

  ghost predicate HistoryOk(recent: seq<Station>)
  {
    |recent| <= RECENT_LIMIT && NoDupIds(recent)
  }

  /** Any run of plays keeps the history bounded and free of duplicate
      ids, with the last station played at its head. */
  lemma {:induction false} PlaysKeepHistoryOk(recent: seq<Station>, plays: seq<Station>)
    requires HistoryOk(recent)
    ensures HistoryOk(PlayAll(recent, plays))
    ensures plays != [] ==>
              PlayAll(recent, plays) != [] && PlayAll(recent, plays)[0] == plays[|plays| - 1]
    decreases |plays|
  {
    if plays != [] {
      PlaysKeepHistoryOk(PushRecent(recent, plays[0]), plays[1..]);
      if |plays| > 1 {
        assert plays[1..][|plays| - 2] == plays[|plays| - 1];
      }
    }
  }

  /** Playing A, then B, then A again leaves A then B, not A twice. */
  lemma ReplayMovesToFront(a: Station, b: Station)
    requires a.id != b.id
    ensures PlayAll([], [a, b, a]) == [a, b]
  {
    var h1 := PushRecent([], a);
    assert h1 == [a];
    var h2 := PushRecent(h1, b);
    assert h2 == [b, a];
    var h3 := PushRecent(h2, a);
    var rest := WithoutId(h2, a.id);
    assert h2[1..] == [a] && [a][1..] == [];
    assert rest == [b];
    assert h3 == [a, b];
    assert [a, b, a][1..] == [b, a] && [b, a][1..] == [a];
    calc {
      PlayAll([], [a, b, a]);
      PlayAll(h1, [b, a]);
      PlayAll(h2, [a]);
      PlayAll(h3, []);
    }
  }

  // ---------------------------------------------------------------------
  // The provider

  /** The three playback states: nothing selected, a station playing, a
      station selected but not playing. */
  datatype Phase = Idle | Playing | Paused

  class RadioProvider {
    var currentStation: Option<Station>
    var isPlaying: bool
    var volume: real
    var favorites: seq<Station>
    var recentlyPlayed: seq<Station>

    /** The store's invariant. */
    ghost predicate Valid()
      reads this
    {
      && NoDupIds(favorites)
      && HistoryOk(recentlyPlayed)
      && (isPlaying ==> currentStation.Some?)
    }

    function Phase(): Phase
      reads this
    {
      if currentStation.None? then Idle else if isPlaying then Playing else Paused
    }

    /** The provider's initial state, before anything is read from storage. */
    constructor ()
      ensures Valid() && Phase() == Idle
      ensures currentStation == None && !isPlaying && volume == INITIAL_VOLUME
      ensures favorites == [] && recentlyPlayed == []
    {
      currentStation := None;
      isPlaying := false;
      volume := INITIAL_VOLUME;
      favorites := [];
      recentlyPlayed := [];
    }

    /** `playStation`: select the station, request playback and record it in
        the history. A rejected `play()` sets `isPlaying` back to false but
        keeps the station selected. */
    method PlayStation(station: Station, rejected: bool)
      requires Valid()
      modifies this`currentStation, this`isPlaying, this`recentlyPlayed
      ensures Valid()
      ensures currentStation == Some(station) && isPlaying == !rejected
      ensures Phase() == if rejected then Paused else Playing
      ensures recentlyPlayed == PushRecent(old(recentlyPlayed), station)
      ensures favorites == old(favorites) && volume == old(volume)
    {
      var history := PushRecent(recentlyPlayed, station);
      currentStation, isPlaying, recentlyPlayed := Some(station), !rejected, history;
    }

    /** `pauseStation`: stop playing; nothing else changes. */
    method PauseStation()
      requires Valid()
      modifies this`isPlaying
      ensures Valid() && !isPlaying
      ensures Phase() == if old(Phase()) == Idle then Idle else Paused
    {
      isPlaying := false;
    }

    /** `togglePlay`: pause when playing; resume the selected station when
        not (falling back to not playing if `play()` is rejected); do
        nothing when no station is selected. */
    method TogglePlay(rejected: bool)
      requires Valid()
      modifies this`isPlaying
      ensures Valid()
      ensures Phase() == match old(Phase())
        case Idle => Idle
        case Playing => Paused
        case Paused => if rejected then Paused else Playing
      ensures old(isPlaying) ==> !isPlaying
      ensures currentStation.None? ==> isPlaying == old(isPlaying)
    {
      if isPlaying {
        PauseStation();
      } else if currentStation.Some? {
        isPlaying := true;
        if rejected {
          isPlaying := false;
        }
      }
    }

    /** `setVolume` is the bare state setter: the value is stored as given. */
    method SetVolume(v: real)
      requires Valid()
      modifies this`volume
      ensures Valid() && volume == v
    {
      volume := v;
    }

    /** `addToFavorites`: append the station unless its id is present. */
    method AddToFavorites(station: Station)
      requires Valid()
      modifies this`favorites
      ensures Valid()
      ensures favorites == AddFavorite(old(favorites), station)
      ensures IsFavorite(station.id)
    {
      favorites := AddFavorite(favorites, station);
    }

    /** `removeFromFavorites`: drop every entry with the id. */
    method RemoveFromFavorites(id: string)
      requires Valid()
      modifies this`favorites
      ensures Valid()
      ensures favorites == WithoutId(old(favorites), id)
      ensures !IsFavorite(id)
    {
      favorites := WithoutId(favorites, id);
    }

    /** `isFavorite`: some favourite has the id. */
    function IsFavorite(id: string): (b: bool)
      reads this
      ensures b <==> exists s :: s in favorites && s.id == id
    {
      HasId(favorites, id)
    }
  }
}
