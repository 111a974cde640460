# GlobalRadio core in Dafny

GlobalRadio is a browser radio player over the public radio-browser
directory. This project models its core:

- the playback-and-favourites store, `RadioProvider`
  (`radio_context.dfy`): the station being played, whether it is playing,
  the volume, the favourites, and a recently-played history of at most ten
  stations, most recent first;
- the directory client (`radio_api.dfy`): choosing and caching the
  directory's base URL, building the search query, and normalising raw
  directory records into stations, countries and genres;
- the Browse page (`browse.dfy`): countries and genres with stations,
  sorted by name or by descending station count, the first country
  preselected, a case-insensitive search box, and the selection handlers;
- the Favorites page (`favorites_page.dfy`): the favourites search and
  "Clear All";
- the station card (`station_card.dfy`): the "is this card playing" test,
  the play/pause button and the favourite toggle.

Shared pieces: the records of `src/types/index.ts` (`types.dfy`), list
operations standing for `filter`, `map` and a stable `sort` (`lists.dfy`),
and string operations (`text.dfy`).

The store, the directory client's base-URL cache and the pages' state are
classes whose methods update their fields. The list updaters, mappers,
filters and sorts are pure functions. Each operation is tied to a
specification function or a lemma that states its property.

Where the browser or the network would decide something, the model takes
it as a parameter:

- `rejected: bool`: whether the audio element rejected a `play()` request.
- `fetch: Request -> Response<T>`: the network.
- `pick: nat`: the index `Math.random` drew from the server list.
- The Browse page is handed the results of its directory calls.

Two behaviours of the code are worth stating outright:

- `setVolume` is the bare state setter; nothing clamps the value
  (src/contexts/RadioContext.tsx:36, :154), so
  `RadioContext.RadioProvider.SetVolume` ensures `volume == v`.
- Any falsy favicon, the empty string included, becomes the placeholder
  (src/services/radioApi.ts:57); see `RadioApi.Favicon`.

## Model

| member | source | states |
|---|---|---|
| RadioContext.WithoutId | src/contexts/RadioContext.tsx:135-137 | No entry keeps the id. Every other entry stays, in order, as a subsequence. The list is unchanged when the id is absent. Unique ids are preserved. |
| RadioContext.WithoutIdKeepsCopies | src/contexts/RadioContext.tsx:135-137 | Every entry without the id is kept as many times as it occurred; none with the id is kept. |
| RadioContext.AddFavorite | src/contexts/RadioContext.tsx:128-133 | The id is present afterwards. The list is unchanged when the id was already there. Otherwise it grows by one, earlier entries are untouched and the station is last. Unique ids are preserved. |
| RadioContext.AddFavoriteIdempotent | src/contexts/RadioContext.tsx:128-133 | Adding the same station twice equals adding it once. |
| RadioContext.WithoutIdKeepsOthers | src/contexts/RadioContext.tsx:135-137 | Removing one id leaves the membership of every other id as it was. |
| RadioContext.EditsKeepNoDupIds | src/contexts/RadioContext.tsx:128-137 | Any run of adds and removes on a list with unique ids keeps the ids unique. |
| RadioContext.PushRecent | src/contexts/RadioContext.tsx:100-104 | The history has 1 to 10 entries. The played station is first. No later entry shares its id. The rest is a subsequence of the old history. The entries after it are the first of the old history without the station's id, as many as fit: all of them when fewer than ten, otherwise the nine most recent. Unique ids are preserved. |
| RadioContext.PlaysKeepHistoryOk | src/contexts/RadioContext.tsx:96-105 | Any run of plays keeps the history within 10 entries with unique ids, and the last station played is at its head. |
| RadioContext.ReplayMovesToFront | src/contexts/RadioContext.tsx:96-105 | Playing A, B, A from an empty history yields [A, B]. |
| RadioContext.RadioProvider.constructor | src/contexts/RadioContext.tsx:34-38 | Starts with no station, not playing, volume 0.8 and both lists empty. The invariant holds. |
| RadioContext.RadioProvider.PlayStation | src/contexts/RadioContext.tsx:96-105 | The station becomes current. It is playing unless the audio element rejects `play()`, in which case it stays selected but paused. The history is `PushRecent` of the old one. Favourites and volume are unchanged. The invariant is kept. |
| RadioContext.RadioProvider.PauseStation | src/contexts/RadioContext.tsx:107-112 | Only `isPlaying` changes, and it becomes false. Playing goes to Paused; Idle stays Idle. |
| RadioContext.RadioProvider.TogglePlay | src/contexts/RadioContext.tsx:114-126 | Playing goes to Paused. Paused goes to Playing, or stays Paused on rejection. Idle stays Idle. Only `isPlaying` may change. |
| RadioContext.RadioProvider.SetVolume | src/contexts/RadioContext.tsx:154 | Stores the value exactly, without clamping. Nothing else changes. |
| RadioContext.RadioProvider.AddToFavorites | src/contexts/RadioContext.tsx:128-133 | Favourites become `AddFavorite` of the old list. The station's id is a favourite afterwards. Unique ids are kept. |
| RadioContext.RadioProvider.RemoveFromFavorites | src/contexts/RadioContext.tsx:135-137 | Favourites become `WithoutId` of the old list. The id is not a favourite afterwards. |
| RadioContext.RadioProvider.IsFavorite | src/contexts/RadioContext.tsx:139-141 | True exactly when some favourite has the id. |
| Types.HasId | src/contexts/RadioContext.tsx:130 | `some(s => s.id === id)` holds exactly when some index carries the id. |
| RadioApi.FetchServerList | src/services/radioApi.ts:6-8 | The server list is read from the fixed `/json/servers` URL. It is available exactly when that request gives a 2xx reply with a readable body, and then holds the listed names. |
| RadioApi.ResolveBaseUrl | src/services/radioApi.ts:4-18 | The URL is `https://<name>/json` for the drawn server of a non-empty list. It is the fixed de1 fallback when the list is unavailable or empty. Never empty. |
| RadioApi.DirectoryClient.constructor | src/services/radioApi.ts:20 | The base-URL cache starts empty. |
| RadioApi.DirectoryClient.InitializeApi | src/services/radioApi.ts:20-27 | Once a base URL is cached, it is returned unchanged without resolving again. An empty cache is filled with the resolved URL. |
| RadioApi.KeyNamesDistinct | src/services/radioApi.ts:34-38 | The five parameters go by five distinct names in the query string. |
| RadioApi.SearchQuerySpec | src/services/radioApi.ts:32-38 | The query holds name, country, language, tag, limit in that order. Each appears exactly when its value is truthy, with that value; the limit appears in decimal. |
| RadioApi.BuildSearchQuery | src/services/radioApi.ts:32-38 | Appending one parameter after another builds exactly `SearchQuery`. |
| RadioApi.Favicon | src/services/radioApi.ts:57 | A truthy raw favicon is kept. A missing or empty one becomes `/placeholder-station.png`. |
| RadioApi.Tags | src/services/radioApi.ts:60 | Absent tags give `[]`. Present tags give at least one comma-free piece, and the pieces join back with commas to the raw text. |
| RadioApi.TrailingCommaKeepsEmptyTag | src/services/radioApi.ts:60 | `"rock,pop,"` gives `["rock", "pop", ""]`. |
| Text.SplitJoin | src/services/radioApi.ts:60 | Splitting the comma-join of comma-free pieces gives the pieces back. |
| Text.JoinSplit | src/services/radioApi.ts:60 | Joining the pieces of a split gives the text back. |
| RadioApi.MapStation | src/services/radioApi.ts:53-64 | `id` comes from `stationuuid` and `url` from `url_resolved`. Name, country, language, votes, codec and bitrate are copied. The favicon is `Favicon` of the raw favicon and the tags are `Tags` of the raw tags: the favicon is never empty, present tags join back to the raw text, absent tags give `[]`. |
| RadioApi.MapStations | src/services/radioApi.ts:53-64 | Same length and order, record by record. |
| RadioApi.DistinctUuidsGiveDistinctIds | src/services/radioApi.ts:54 | Raw stations with distinct uuids map to stations with unique ids. |
| RadioApi.MapCountry | src/services/radioApi.ts:103-107 | `code` comes from `iso_3166_1` and `stationCount` from `stationcount`. The name is copied. |
| RadioApi.MapCountries | src/services/radioApi.ts:103-107 | Same length and order, record by record. |
| RadioApi.MapGenre | src/services/radioApi.ts:131-134 | `stationCount` comes from `stationcount`. The name is copied. |
| RadioApi.MapGenres | src/services/radioApi.ts:131-134 | Same length and order, record by record. |
| RadioApi.Received | src/services/radioApi.ts:48-50 | A body counts only for a status from 200 to 299 with a readable body. |
| RadioApi.SearchStations | src/services/radioApi.ts:40-68 | Fails exactly when nothing usable came back, with the fixed stations message. Otherwise returns the mapped stations. |
| RadioApi.GetPopularStations | src/services/radioApi.ts:72-74 | Sends `/stations/search` with `limit` alone, dropped when 0. Fails exactly when nothing usable came back, with the stations message; otherwise the mapped stations. |
| RadioApi.GetStationsByCountry | src/services/radioApi.ts:77-79 | Sends `/stations/search` with `country` when non-empty, then `limit` when non-zero. Fails or succeeds as `searchStations` does on that request. |
| RadioApi.GetStationsByTag | src/services/radioApi.ts:82-84 | Sends `/stations/search` with `tag` when non-empty, then `limit` when non-zero. Fails or succeeds as `searchStations` does on that request. |
| RadioApi.PresetQueries | src/services/radioApi.ts:72-84 | Popular, by-country and by-tag searches send only `limit`, `country` then `limit`, and `tag` then `limit`, each dropped when falsy. |
| RadioApi.DefaultPopularQuery | src/services/radioApi.ts:72-74 | With the default limit, the popular search asks `/stations/search` for `limit=20` alone: one pair, whose wire name is `limit`. |
| RadioApi.GetCountries | src/services/radioApi.ts:87-112 | Fails exactly when nothing usable came back from `/countries`, with the fixed countries message. Otherwise returns the mapped countries. |
| RadioApi.GetGenres | src/services/radioApi.ts:115-139 | Fails exactly when nothing usable came back from `/tags` with the limit, with the fixed genres message. Otherwise returns the mapped genres. |
| Text.IntToStringRoundTrip | src/services/radioApi.ts:38 | The decimal rendering of the limit reads back to the same integer. |
| Text.IncludesIgnoringCase | src/pages/Browse.tsx:100-102 | True exactly when the lower-cased term occurs at some position of the lower-cased text. The empty term always matches. |
| Browse.CountryOrderIsPreorder | src/pages/Browse.tsx:32 | Comparing names is total and transitive, so it is a valid sort comparator. |
| Text.LexLeAntisymmetric | src/pages/Browse.tsx:32 | Two names that each sort no later than the other are equal. |
| Browse.GenreOrderIsPreorder | src/pages/Browse.tsx:37 | Comparing by descending count is total and transitive. |
| Browse.DisplayedCountries | src/pages/Browse.tsx:30-32 | The result is sorted by name. It holds exactly the fetched countries with stations. |
| Browse.DisplayedCountriesPermutation | src/pages/Browse.tsx:30-32 | Each fetched country with stations occurs as often as it was fetched; no other country occurs. |
| Browse.DisplayedGenres | src/pages/Browse.tsx:35-37 | Ordered by non-increasing station count. Holds exactly the fetched genres with stations. |
| Browse.DisplayedGenresPermutation | src/pages/Browse.tsx:35-37 | Each fetched genre with stations occurs as often as it was fetched; no other genre occurs. |
| Browse.Preselection | src/pages/Browse.tsx:43-45 | A country is preselected exactly when the list is non-empty, and it is one of the listed countries. |
| Browse.PreselectionIsFirstByName | src/pages/Browse.tsx:30-45 | The preselected name sorts no later than any fetched country with stations. |
| Browse.FilteredCountries | src/pages/Browse.tsx:100-102 | A subsequence holding exactly the countries whose name contains the term, ignoring case, each matching country as many times as it was stored. An empty term keeps all. |
| Browse.FilteredGenres | src/pages/Browse.tsx:104-106 | A subsequence holding exactly the genres whose name contains the term, ignoring case, each matching genre as many times as it was stored. An empty term keeps all. |
| Browse.StationsSearch | src/pages/Browse.tsx:59-87 | A search is issued exactly when the active tab has a truthy selection. It is a country+50 or tag+50 search accordingly. |
| Browse.BrowsePage.constructor | src/pages/Browse.tsx:8-16 | Empty lists, country tab, nothing selected, loading, no error. |
| Browse.BrowsePage.LoadBrowseData | src/pages/Browse.tsx:19-56 | On success: the displayed lists are stored and the first country is preselected if there is one. On failure: the browse error is shown and the lists are kept. Loading ends either way. |
| Browse.BrowsePage.ReceiveStations | src/pages/Browse.tsx:59-87 | With a search issued: stores the stations, or shows "Failed to load stations for <selection>.". Without one: nothing changes. |
| Browse.BrowsePage.HandleCountrySelect | src/pages/Browse.tsx:89-92 | Selects the country and the country tab. A non-empty name leads to that country's search. |
| Browse.BrowsePage.HandleGenreSelect | src/pages/Browse.tsx:94-97 | Selects the genre and the genre tab. A non-empty name leads to that tag's search. |
| Browse.BrowsePage.SelectCategory | src/pages/Browse.tsx:117-136 | Switches the tab only. |
| Browse.BrowsePage.SetSearchTerm | src/pages/Browse.tsx:149 | Stores the term only. |
| Browse.BrowsePage.VisibleCountries | src/pages/Browse.tsx:100-102 | Equals `FilteredCountries` of the stored list and the term, so every matching stored entry is shown, repeats included. The sidebar's countries stay sorted by name, and each has stations. |
| Browse.BrowsePage.VisibleGenres | src/pages/Browse.tsx:104-106 | Equals `FilteredGenres` of the stored list and the term, so every matching stored entry is shown, repeats included. The sidebar's genres stay in non-increasing count order, and each has stations. |
| FavoritesPage.MatchesTerm | src/pages/Favorites.tsx:14-17 | True exactly when the term appears, ignoring case, in the name, the country or some tag. The empty term always matches. |
| FavoritesPage.FilteredFavorites | src/pages/Favorites.tsx:13-18 | An order-preserving subsequence holding exactly the matching favourites, each as many times as it occurred. An empty term keeps all. |
| FavoritesPage.FavoritesView.constructor | src/pages/Favorites.tsx:9-10 | Empty term, no confirmation shown. |
| FavoritesPage.FavoritesView.RequestClear | src/pages/Favorites.tsx:37 | Shows the confirmation. |
| FavoritesPage.FavoritesView.ClearAllFavorites | src/pages/Favorites.tsx:20-25 | Removing each id of the snapshot empties the favourites. The rest of the store is untouched, and the confirmation closes. |
| StationCard.IsCurrentlyPlaying | src/components/StationCard.tsx:22 | True exactly when the store is Playing and the current station has the card's id. |
| StationCard.OnlyOneCardPlays | src/components/StationCard.tsx:22 | Two cards showing as playing have the same id. |
| StationCard.HandlePlayPause | src/components/StationCard.tsx:24-31 | A playing card pauses, keeping station and history. Any other card plays its station: it becomes current, and is playing unless rejected. |
| StationCard.ToggleFavorite | src/components/StationCard.tsx:33-40 | Flips the station's membership and leaves every other id's membership alone. Unique ids are kept. |
| StationCard.ToggleTwice | src/components/StationCard.tsx:33-40 | A non-favourite toggled twice leaves the list as it was. A favourite toggled twice moves to the end. |
| StationCard.HandleFavoriteToggle | src/components/StationCard.tsx:33-40 | Favourites become `ToggleFavorite` of the old list. `isFavorite` of the station is negated. |

## Left out

- Persistence of favourites and history in `localStorage`, and reading them back at start-up. This is storage I/O. The model starts from the provider's initial state.
- The audio element: `new Audio`, `src`, `volume` and `pause()`, and the timing of the effects that drive them. Only the outcome of `play()` is kept, as the `rejected` parameter.
- `fetch` itself: the headers, `response.json()` and the logged errors. A response is a parameter, and an unreadable body is `None`.
- Percent-encoding of the query string by `URLSearchParams`. The model keeps the query as ordered key/value pairs.
- `Math.random`: the drawn index is a parameter.
- Locale rules of `localeCompare` and Unicode `toLowerCase`. Names are compared code unit by code unit, and only ASCII letters are lower-cased.
- JavaScript number semantics. Limits, counts and votes are integers, so a `NaN` limit is not modelled.
- The `await initializeApi()` in each request: the request functions take the resolved base URL. Because the Browse page starts `getCountries()` and `getGenres(50)` together (src/pages/Browse.tsx:24-27), both can find the cache still empty (src/services/radioApi.ts:23) and each resolve a base URL, possibly different servers; `InitializeApi` models one call at a time and does not show that race.
- Playing the same station object that is already current issues no new `play()` in the source: the playback effect runs only when `currentStation` changes (src/contexts/RadioContext.tsx:87), which compares the object, not its id; a freshly fetched record with the same id does request playback. For the same object, `PlayStation` then sets `isPlaying` while the audio element stays paused; the model, without the audio element, does not show that mismatch.
- Lists.SortBy: stability is not stated. The sorts are specified by order and permutation only.
- The ordering of overlapping asynchronous requests on the Browse page. Each response is applied as one step, `LoadBrowseData` or `ReceiveStations`.
- The loading flag that `fetchStations` raises while its request is in flight. Only the state after the response is modelled.
- Rendering: JSX, the player bar with its volume icon thresholds and its own favourite toggle (the same toggle as the card's), the About, Home and Search pages, and the layout.
- `LoadBrowseData` takes the two results as parameters and is not tied to `RadioApi.GetCountries` or to `RadioApi.GetGenres` with the page's limit of 50 (src/pages/Browse.tsx:24-27): any country and genre results can be passed in.
