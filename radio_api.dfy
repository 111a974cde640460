/** The directory client (src/services/radioApi.ts): choosing and caching
    the directory's base URL, building search queries, and normalising the
    directory's raw records into the application's records.

    The network is a parameter: each request function is given `fetch`, a
    function from the request the client issues to the response it gets
    back, and the random server choice is given as the index it picked. */
module RadioApi {
  import opened Wrappers
  import opened Types
  import Lists
  import Text

  const SERVER_LIST_URL := "https://all.api.radio-browser.info/json/servers"
  const FALLBACK_BASE_URL := "https://de1.api.radio-browser.info/json"
  const PLACEHOLDER_FAVICON := "/placeholder-station.png"
  const DEFAULT_STATION_LIMIT: int := 20
  const DEFAULT_GENRE_LIMIT: int := 30
  const STATIONS_ERROR := "Failed to fetch stations. Please check your connection and try again."
  const COUNTRIES_ERROR := "Failed to fetch countries. Please check your connection and try again."
  const GENRES_ERROR := "Failed to fetch genres. Please check your connection and try again."

  /** A JavaScript string value that may be absent; it is truthy when
      present and non-empty. */
  predicate Truthy(v: Option<string>)
  {
    v.Some? && v.value != ""
  }

  // ---------------------------------------------------------------------
  // Base URL

  /** What the server-list request produced: nothing usable (a network
      failure, a non-success status or an unreadable body), or the names of
      the listed servers. */
  datatype ServerList = ServerListUnavailable | Servers(names: seq<string>)

  /** The server-list request of `getApiBaseUrl`: a 2xx reply with a
      readable body gives the listed names; anything else leaves the list
      unavailable. */
  function FetchServerList(fetch: Request -> Response<seq<string>>): (l: ServerList)
    ensures l.Servers? <==> Received(fetch(Request(SERVER_LIST_URL, []))).Some?
    ensures l.Servers? ==> l.names == Received(fetch(Request(SERVER_LIST_URL, []))).value
  {
    match Received(fetch(Request(SERVER_LIST_URL, [])))
    case None => ServerListUnavailable
    case Some(names) => Servers(names)
  }

  function BaseUrlFor(host: string): string
  {
    "https://" + host + "/json"
  }

  /** `getApiBaseUrl`: the listed server at the randomly drawn index, or the
      fixed fallback server when the list is unavailable or empty. */
  function ResolveBaseUrl(servers: ServerList, pick: nat): (url: string)
    requires servers.Servers? && |servers.names| > 0 ==> pick < |servers.names|
    ensures url != ""
    ensures servers.Servers? && |servers.names| > 0 ==> url == BaseUrlFor(servers.names[pick])
    ensures servers.ServerListUnavailable? || |servers.names| == 0 ==>
              url == FALLBACK_BASE_URL
  {
    match servers
    case ServerListUnavailable => FALLBACK_BASE_URL
    case Servers(names) =>
      if |names| == 0 then FALLBACK_BASE_URL else BaseUrlFor(names[pick])
  }

  /** The module-level `API_BASE_URL` cache and `initializeApi`. */
  class DirectoryClient {
    var apiBaseUrl: Option<string>

    constructor ()
      ensures apiBaseUrl == None
    {
      apiBaseUrl := None;
    }

    /** `initializeApi`: resolve the base URL only while the cache is empty
        (null or the empty string); afterwards return the cached value. */
    method InitializeApi(servers: ServerList, pick: nat) returns (url: string)
      requires servers.Servers? && |servers.names| > 0 ==> pick < |servers.names|
      modifies this
      ensures apiBaseUrl == Some(url) && Truthy(apiBaseUrl)
      ensures Truthy(old(apiBaseUrl)) ==> url == old(apiBaseUrl).value
      ensures !Truthy(old(apiBaseUrl)) ==> url == ResolveBaseUrl(servers, pick)
    {
      if !Truthy(apiBaseUrl) {
        apiBaseUrl := Some(ResolveBaseUrl(servers, pick));
      }
      url := apiBaseUrl.value;
    }
  }

  // ---------------------------------------------------------------------
  // Search query

  /** The query parameters the client sends, by name. */
  datatype QueryKey = NameKey | CountryKey | LanguageKey | TagKey | LimitKey

  /** The name a parameter goes by in the URL. */
  function KeyName(key: QueryKey): string
  {
    match key
    case NameKey => "name"
    case CountryKey => "country"
    case LanguageKey => "language"
    case TagKey => "tag"
    case LimitKey => "limit"
  }

  /** Distinct parameters go by distinct names, so the query string names
      each value unambiguously. */
  lemma KeyNamesDistinct(a: QueryKey, b: QueryKey)
    requires KeyName(a) == KeyName(b)
    ensures a == b
  {
  }

  function TextArg(v: Option<string>): Option<string>
  {
    if Truthy(v) then v else None
  }

  function NumberArg(v: Option<int>): Option<string>
  {
    if v.Some? && v.value != 0 then Some(Text.IntToString(v.value)) else None
  }

  /** The value the query carries for `key`, if the parameter is truthy. */
  function SearchArg(p: SearchParams, key: QueryKey): Option<string>
  {
    match key
    case NameKey => TextArg(p.name)
    case CountryKey => TextArg(p.country)
    case LanguageKey => TextArg(p.language)
    case TagKey => TextArg(p.tag)
    case LimitKey => NumberArg(p.limit)
  }

  /** The position of a search parameter in the order the client appends
      them. */
  function Rank(key: QueryKey): nat
  {
    match key
    case NameKey => 0
    case CountryKey => 1
    case LanguageKey => 2
    case TagKey => 3
    case LimitKey => 4
  }

  /** The pair `searchStations` appends for `key`, if any. */
  function Param(p: SearchParams, key: QueryKey): seq<(QueryKey, string)>
  {
    match SearchArg(p, key)
    case None => []
    case Some(v) => [(key, v)]
  }

  /** `q` is the query built from the first `m` parameters: every pair
      carries its parameter's value, the pairs go by rank, and every truthy
      parameter among the first `m` has its pair. */
  ghost predicate BuiltUpTo(p: SearchParams, q: seq<(QueryKey, string)>, m: nat)
  {
    && (forall i :: 0 <= i < |q| ==> SearchArg(p, q[i].0) == Some(q[i].1) && Rank(q[i].0) < m)
    && (forall i, j :: 0 <= i < j < |q| ==> Rank(q[i].0) < Rank(q[j].0))
    && (forall k :: Rank(k) < m && SearchArg(p, k).Some? ==> exists i :: 0 <= i < |q| && q[i].0 == k)
  }

  lemma AppendParam(p: SearchParams, q: seq<(QueryKey, string)>, key: QueryKey)
    requires BuiltUpTo(p, q, Rank(key))
    ensures BuiltUpTo(p, q + Param(p, key), Rank(key) + 1)
  {
    var q' := q + Param(p, key);
    forall k | Rank(k) < Rank(key) + 1 && SearchArg(p, k).Some?
      ensures exists i :: 0 <= i < |q'| && q'[i].0 == k
    {
      if Rank(k) < Rank(key) {
        var i :| 0 <= i < |q| && q[i].0 == k;
        assert q'[i] == q[i];
      } else {
        assert k == key;
        assert q'[|q|].0 == k;
      }
    }
  }

  /** The query of `searchStations`. */
  function SearchQuery(p: SearchParams): seq<(QueryKey, string)>
  {
    Param(p, NameKey) + Param(p, CountryKey) + Param(p, LanguageKey)
    + Param(p, TagKey) + Param(p, LimitKey)
  }

  lemma SearchQueryBuilt(p: SearchParams)
    ensures BuiltUpTo(p, SearchQuery(p), 5)
  {
    var q1 := Param(p, NameKey);
    AppendParam(p, [], NameKey);
    assert [] + q1 == q1;
    var q2 := q1 + Param(p, CountryKey);
    AppendParam(p, q1, CountryKey);
    var q3 := q2 + Param(p, LanguageKey);
    AppendParam(p, q2, LanguageKey);
    var q4 := q3 + Param(p, TagKey);
    AppendParam(p, q3, TagKey);
    AppendParam(p, q4, LimitKey);
  }

  /** The query holds `name`, `country`, `language`, `tag`, `limit` in that
      order, each exactly when its value is truthy, and with that value. */
  lemma SearchQuerySpec(p: SearchParams)
    ensures var q := SearchQuery(p);
      && (forall i :: 0 <= i < |q| ==> SearchArg(p, q[i].0) == Some(q[i].1))
      && (forall i, j :: 0 <= i < j < |q| ==> Rank(q[i].0) < Rank(q[j].0))
      && (forall k :: SearchArg(p, k).Some? <==> exists i :: 0 <= i < |q| && q[i].0 == k)
  {
    SearchQueryBuilt(p);
  }

  /** `searchStations` appending to its `URLSearchParams` one parameter
      after another. */
  method BuildSearchQuery(p: SearchParams) returns (query: seq<(QueryKey, string)>)
    ensures query == SearchQuery(p)
  {
    query := [];
    if Truthy(p.name) {
      query := query + [(NameKey, p.name.value)];
    }
    assert query == Param(p, NameKey);
    ghost var q1 := query;
    if Truthy(p.country) {
      query := query + [(CountryKey, p.country.value)];
    }
    assert query == q1 + Param(p, CountryKey);
    ghost var q2 := query;
    if Truthy(p.language) {
      query := query + [(LanguageKey, p.language.value)];
    }
    assert query == q2 + Param(p, LanguageKey);
    ghost var q3 := query;
    if Truthy(p.tag) {
      query := query + [(TagKey, p.tag.value)];
    }
    assert query == q3 + Param(p, TagKey);
    ghost var q4 := query;
    if p.limit.Some? && p.limit.value != 0 {
      query := query + [(LimitKey, Text.IntToString(p.limit.value))];
    }
    assert query == q4 + Param(p, LimitKey);
  }

  // ---------------------------------------------------------------------
  // Raw records and their normalisation

  /** A station as the directory sends it. */
  datatype RawStation = RawStation(
    stationuuid: string,
    name: string,
    url_resolved: string,
    favicon: Option<string>,
    country: string,
    language: string,
    tags: Option<string>,
    votes: int,
    codec: string,
    bitrate: int)

  datatype RawCountry = RawCountry(name: string, iso_3166_1: string, stationcount: int)

  datatype RawGenre = RawGenre(name: string, stationcount: int)

  /** `station.favicon || '/placeholder-station.png'`. */
  function Favicon(raw: Option<string>): (r: string)
    ensures r != ""
    ensures Truthy(raw) ==> r == raw.value
    ensures !Truthy(raw) ==> r == PLACEHOLDER_FAVICON
  {
    if Truthy(raw) then raw.value else PLACEHOLDER_FAVICON
  }

  /** `station.tags?.split(',') || []`: absent tags give no tags; present
      ones (even the empty string) split into comma-free pieces that join
      back to the original text. */
  function Tags(raw: Option<string>): (r: seq<string>)
    ensures raw.None? ==> r == []
    ensures raw.Some? ==> |r| >= 1 && Text.Join(r, ',') == raw.value
    ensures forall i :: 0 <= i < |r| ==> ',' !in r[i]
  {
    match raw
    case None => []
    case Some(text) =>
      Text.JoinSplit(text, ',');
      Text.Split(text, ',')
  }

  /** A trailing comma leaves an empty last tag. */
  lemma TrailingCommaKeepsEmptyTag()
    ensures Tags(Some("rock,pop,")) == ["rock", "pop", ""]
  {
    var parts := ["rock", "pop", ""];
    assert parts[1..] == ["pop", ""] && parts[1..][1..] == [""];
    assert Text.Join(parts, ',') == "rock,pop,";
    Text.SplitJoin(parts, ',');
  }

  /** The record mapping of `searchStations`. */
  function MapStation(raw: RawStation): (s: Station)
    ensures s.id == raw.stationuuid && s.url == raw.url_resolved
    ensures s.name == raw.name && s.country == raw.country && s.language == raw.language
    ensures s.votes == raw.votes && s.codec == raw.codec && s.bitrate == raw.bitrate
    ensures s.favicon == Favicon(raw.favicon) && s.tags == Tags(raw.tags)
    ensures s.favicon != ""
    ensures raw.tags.Some? ==> Text.Join(s.tags, ',') == raw.tags.value
    ensures raw.tags.None? ==> s.tags == []
  {
    Station(
      raw.stationuuid, raw.name, raw.url_resolved, Favicon(raw.favicon),
      raw.country, raw.language, Tags(raw.tags), raw.votes, raw.codec, raw.bitrate)
  }

  function MapStations(raws: seq<RawStation>): (r: seq<Station>)
    ensures |r| == |raws|
    ensures forall i :: 0 <= i < |raws| ==> r[i] == MapStation(raws[i])
  {
    Lists.Map(raws, MapStation)
  }

  /** Stations with distinct directory uuids map to stations with distinct
      ids. */
  lemma DistinctUuidsGiveDistinctIds(raws: seq<RawStation>)
    requires forall i, j :: 0 <= i < j < |raws| ==> raws[i].stationuuid != raws[j].stationuuid
    ensures NoDupIds(MapStations(raws))
  {
  }

  function MapCountry(raw: RawCountry): (c: Country)
    ensures c.name == raw.name && c.code == raw.iso_3166_1 && c.stationCount == raw.stationcount
  {
    Country(raw.name, raw.iso_3166_1, raw.stationcount)
  }

  function MapCountries(raws: seq<RawCountry>): (r: seq<Country>)
    ensures |r| == |raws|
    ensures forall i :: 0 <= i < |raws| ==> r[i] == MapCountry(raws[i])
  {
    Lists.Map(raws, MapCountry)
  }

  function MapGenre(raw: RawGenre): (g: Genre)
    ensures g.name == raw.name && g.stationCount == raw.stationcount
  {
    Genre(raw.name, raw.stationcount)
  }

  function MapGenres(raws: seq<RawGenre>): (r: seq<Genre>)
    ensures |r| == |raws|
    ensures forall i :: 0 <= i < |raws| ==> r[i] == MapGenre(raws[i])
  {
    Lists.Map(raws, MapGenre)
  }

  // ---------------------------------------------------------------------
  // Requests

  /** A GET request: the URL before `?` and the query pairs after it. */
  datatype Request = Request(url: string, query: seq<(QueryKey, string)>)

  /** What `fetch` and `response.json()` produce: a transport failure, or a
      status with the parsed body (`None` when the body could not be read
      as the expected array). */
  datatype Response<T> = TransportFailure | Reply(status: int, body: Option<T>)

  /** The body of a response whose status is in the 200 range and whose
      body was read; nothing otherwise. */
  function Received<T>(response: Response<T>): (r: Option<T>)
    ensures r.Some? <==> response.Reply? && 200 <= response.status <= 299 && response.body.Some?
    ensures r.Some? ==> r == response.body
  {
    if response.Reply? && 200 <= response.status <= 299 then response.body else None
  }

  function SearchRequest(baseUrl: string, p: SearchParams): Request
  {
    Request(baseUrl + "/stations/search", SearchQuery(p))
  }

  /** `searchStations`: one request; its stations normalised, or the fixed
      error message when anything fails. */
  function SearchStations(baseUrl: string, p: SearchParams,
                          fetch: Request -> Response<seq<RawStation>>)
    : (r: Result<seq<Station>, string>)
    ensures r.Failure? <==> Received(fetch(SearchRequest(baseUrl, p))).None?
    ensures r.Failure? ==> r.error == STATIONS_ERROR
    ensures r.Success? ==>
              r.value == MapStations(Received(fetch(SearchRequest(baseUrl, p))).value)
  {
    match Received(fetch(SearchRequest(baseUrl, p)))
    case None => Failure(STATIONS_ERROR)
    case Some(data) => Success(MapStations(data))
  }

  function PopularParams(limit: int): SearchParams
  {
    SearchParams(None, None, None, None, Some(limit))
  }

  function CountryParams(country: string, limit: int): SearchParams
  {
    SearchParams(None, Some(country), None, None, Some(limit))
  }

  function TagParams(tag: string, limit: int): SearchParams
  {
    SearchParams(None, None, None, Some(tag), Some(limit))
  }

  /** `getPopularStations`: a search with only the limit, which the query
      carries when it is non-zero. */
  function GetPopularStations(baseUrl: string, fetch: Request -> Response<seq<RawStation>>,
                              limit: int := DEFAULT_STATION_LIMIT)
    : (r: Result<seq<Station>, string>)
    ensures var req := Request(baseUrl + "/stations/search",
                               if limit != 0 then [(LimitKey, Text.IntToString(limit))] else []);
      && (r.Failure? <==> Received(fetch(req)).None?)
      && (r.Failure? ==> r.error == STATIONS_ERROR)
      && (r.Success? ==> r.value == MapStations(Received(fetch(req)).value))
  {
    PresetQueries("", "", limit);
    SearchStations(baseUrl, PopularParams(limit), fetch)
  }

  /** `getStationsByCountry`: a search with the country, when non-empty,
      then the limit, when non-zero. */
  function GetStationsByCountry(baseUrl: string, fetch: Request -> Response<seq<RawStation>>,
                                country: string, limit: int := DEFAULT_STATION_LIMIT)
    : (r: Result<seq<Station>, string>)
    ensures var req := Request(baseUrl + "/stations/search",
                               (if country != "" then [(CountryKey, country)] else [])
                               + (if limit != 0 then [(LimitKey, Text.IntToString(limit))] else []));
      && (r.Failure? <==> Received(fetch(req)).None?)
      && (r.Failure? ==> r.error == STATIONS_ERROR)
      && (r.Success? ==> r.value == MapStations(Received(fetch(req)).value))
  {
    PresetQueries(country, "", limit);
    SearchStations(baseUrl, CountryParams(country, limit), fetch)
  }

  /** `getStationsByTag`: a search with the tag, when non-empty, then the
      limit, when non-zero. */
  function GetStationsByTag(baseUrl: string, fetch: Request -> Response<seq<RawStation>>,
                            tag: string, limit: int := DEFAULT_STATION_LIMIT)
    : (r: Result<seq<Station>, string>)
    ensures var req := Request(baseUrl + "/stations/search",
                               (if tag != "" then [(TagKey, tag)] else [])
                               + (if limit != 0 then [(LimitKey, Text.IntToString(limit))] else []));
      && (r.Failure? <==> Received(fetch(req)).None?)
      && (r.Failure? ==> r.error == STATIONS_ERROR)
      && (r.Success? ==> r.value == MapStations(Received(fetch(req)).value))
  {
    PresetQueries("", tag, limit);
    SearchStations(baseUrl, TagParams(tag, limit), fetch)
  }

  /** The presets send only their own parameters: `limit` alone, `country`
      then `limit`, `tag` then `limit`, each dropped when falsy. */
  lemma PresetQueries(country: string, tag: string, limit: int)
    ensures SearchQuery(PopularParams(limit)) ==
              (if limit != 0 then [(LimitKey, Text.IntToString(limit))] else [])
    ensures SearchQuery(CountryParams(country, limit)) ==
              (if country != "" then [(CountryKey, country)] else [])
              + (if limit != 0 then [(LimitKey, Text.IntToString(limit))] else [])
    ensures SearchQuery(TagParams(tag, limit)) ==
              (if tag != "" then [(TagKey, tag)] else [])
              + (if limit != 0 then [(LimitKey, Text.IntToString(limit))] else [])
  {
  }

  /** With the default limit, the popular-stations request asks for
      `limit=20` and nothing else. */
  lemma DefaultPopularQuery(baseUrl: string)
    ensures SearchRequest(baseUrl, PopularParams(DEFAULT_STATION_LIMIT)) ==
              Request(baseUrl + "/stations/search", [(LimitKey, "20")])
    ensures var q := SearchQuery(PopularParams(DEFAULT_STATION_LIMIT));
      |q| == 1 && KeyName(q[0].0) + "=" + q[0].1 == "limit=20"
  {
    assert Text.NatToString(2) == "2";
    assert Text.IntToString(20) == "20";
  }

  function CountriesRequest(baseUrl: string): Request
  {
    Request(baseUrl + "/countries", [])
  }

  /** `getCountries`. */
  function GetCountries(baseUrl: string, fetch: Request -> Response<seq<RawCountry>>)
    : (r: Result<seq<Country>, string>)
    ensures r.Failure? <==> Received(fetch(CountriesRequest(baseUrl))).None?
    ensures r.Failure? ==> r.error == COUNTRIES_ERROR
    ensures r.Success? ==>
              r.value == MapCountries(Received(fetch(CountriesRequest(baseUrl))).value)
  {
    match Received(fetch(CountriesRequest(baseUrl)))
    case None => Failure(COUNTRIES_ERROR)
    case Some(data) => Success(MapCountries(data))
  }

  /** The tags request always carries its limit, even 0. */
  function GenresRequest(baseUrl: string, limit: int): Request
  {
    Request(baseUrl + "/tags", [(LimitKey, Text.IntToString(limit))])
  }

  /** `getGenres`. */
  function GetGenres(baseUrl: string, fetch: Request -> Response<seq<RawGenre>>,
                     limit: int := DEFAULT_GENRE_LIMIT)
    : (r: Result<seq<Genre>, string>)
    ensures r.Failure? <==> Received(fetch(GenresRequest(baseUrl, limit))).None?
    ensures r.Failure? ==> r.error == GENRES_ERROR
    ensures r.Success? ==>
              r.value == MapGenres(Received(fetch(GenresRequest(baseUrl, limit))).value)
  {
    match Received(fetch(GenresRequest(baseUrl, limit)))
    case None => Failure(GENRES_ERROR)
    case Some(data) => Success(MapGenres(data))
  }
}
