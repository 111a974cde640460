/** The Browse page (src/pages/Browse.tsx): the country and genre lists of
    the sidebar, with their filter-and-sort pipeline and the search box
    that narrows them, and the page state that the selection handlers
    update.

    `localeCompare` is modelled by the code-unit order `Text.LexLe` and
    `toLowerCase` by ASCII lower-casing. The two directory calls are
    parameters: the page is handed what `getCountries()`, `getGenres(50)`
    and the station searches returned. */
module Browse {
  import opened Wrappers
  import opened Types
  import Lists
  import Text
  import RadioApi

  /** The page asks the directory for this many genres and stations. */
  const BROWSE_LIMIT: int := 50

  const BROWSE_ERROR := "Failed to load browse data. Please try again later."

  // ---------------------------------------------------------------------
  // Orders

  /** The country comparator: by name, `a.name.localeCompare(b.name) <= 0`. */
  predicate CountryNameLe(a: Country, b: Country)
  {
    Text.LexLe(a.name, b.name)
  }

  /** The genre comparator: `b.stationCount - a.stationCount <= 0`, the
      larger count first. */
  predicate GenreCountGe(a: Genre, b: Genre)
  {
    b.stationCount - a.stationCount <= 0
  }

  lemma CountryOrderIsPreorder()
    ensures Lists.TotalPreorder(CountryNameLe)
  {
    forall a: Country, b: Country ensures CountryNameLe(a, b) || CountryNameLe(b, a) {
      Text.LexLeTotal(a.name, b.name);
    }
    forall a: Country, b: Country, c: Country | CountryNameLe(a, b) && CountryNameLe(b, c)
      ensures CountryNameLe(a, c)
    {
      Text.LexLeTransitive(a.name, b.name, c.name);
    }
  }

  lemma GenreOrderIsPreorder()
    ensures Lists.TotalPreorder(GenreCountGe)
  {
  }

  // ---------------------------------------------------------------------
  // The sidebar lists

  function HasStations(c: Country): bool
  {
    c.stationCount > 0
  }

  function GenreHasStations(g: Genre): bool
  {
    g.stationCount > 0
  }

  /** The countries the sidebar shows: those with stations, sorted by name. */
  function DisplayedCountries(fetched: seq<Country>): (r: seq<Country>)
    ensures Lists.SortedBy(r, CountryNameLe)
    ensures forall c :: c in r <==> c in fetched && c.stationCount > 0
  {
    CountryOrderIsPreorder();
    var kept := Lists.Filter(fetched, HasStations);
    var r := Lists.SortBy(kept, CountryNameLe);
    assert forall c :: c in r <==> c in kept by {
      forall c ensures c in r <==> c in kept {
        assert c in r <==> multiset(r)[c] > 0;
        assert c in kept <==> multiset(kept)[c] > 0;
      }
    }
    r
  }

  /** The genres the sidebar shows: those with stations, the larger station
      count first. */
  function DisplayedGenres(fetched: seq<Genre>): (r: seq<Genre>)
    ensures Lists.SortedBy(r, GenreCountGe)
    ensures forall g :: g in r <==> g in fetched && g.stationCount > 0
  {
    GenreOrderIsPreorder();
    var kept := Lists.Filter(fetched, GenreHasStations);
    var r := Lists.SortBy(kept, GenreCountGe);
    assert forall g :: g in r <==> g in kept by {
      forall g ensures g in r <==> g in kept {
        assert g in r <==> multiset(r)[g] > 0;
        assert g in kept <==> multiset(kept)[g] > 0;
      }
    }
    r
  }

  /** The sorted country list is a rearrangement of the fetched countries
      that have stations: each such country occurs as often as it was
      fetched, and no other country occurs. */
  lemma DisplayedCountriesPermutation(fetched: seq<Country>, c: Country)
    ensures multiset(DisplayedCountries(fetched))[c] ==
              if c.stationCount > 0 then multiset(fetched)[c] else 0
  {
    CountryOrderIsPreorder();
    Lists.FilterCount(fetched, HasStations, c);
  }

  /** The same for the genre list. */
  lemma DisplayedGenresPermutation(fetched: seq<Genre>, g: Genre)
    ensures multiset(DisplayedGenres(fetched))[g] ==
              if g.stationCount > 0 then multiset(fetched)[g] else 0
  {
    GenreOrderIsPreorder();
    Lists.FilterCount(fetched, GenreHasStations, g);
  }

  /** The country preselected after loading, if any: the first displayed one. */
  function Preselection(displayed: seq<Country>): (r: Option<string>)
    ensures r.Some? <==> |displayed| > 0
    ensures r.Some? ==> exists c :: c in displayed && c.name == r.value
  {
    if |displayed| > 0 then Some(displayed[0].name) else None
  }

  /** The preselected country comes first by name among all fetched
      countries with stations. */
  lemma PreselectionIsFirstByName(fetched: seq<Country>, c: Country)
    requires c in fetched && c.stationCount > 0
    ensures var s := Preselection(DisplayedCountries(fetched));
      s.Some? && Text.LexLe(s.value, c.name)
  {
    var r := DisplayedCountries(fetched);
    assert c in r;
    var k :| 0 <= k < |r| && r[k] == c;
    if k > 0 {
      assert Text.LexLe(r[0].name, r[k].name);
    } else {
      Text.LexLeTotal(c.name, c.name);
    }
  }

  /** The search box: the entries whose name contains the search term,
      ignoring case, in their order. */
  function FilteredCountries(countries: seq<Country>, term: string): (r: seq<Country>)
    ensures Lists.IsSubseq(r, countries)
    ensures forall c :: c in r <==> c in countries && Text.AppearsIgnoringCase(term, c.name)
    ensures forall c :: multiset(r)[c] ==
              if Text.AppearsIgnoringCase(term, c.name) then multiset(countries)[c] else 0
    ensures term == "" ==> r == countries
  {
    var keep := (c: Country) => Text.IncludesIgnoringCase(c.name, term);
    var r := Lists.Filter(countries, keep);
    assert forall c :: multiset(r)[c] ==
             if Text.AppearsIgnoringCase(term, c.name) then multiset(countries)[c] else 0 by {
      forall c ensures multiset(r)[c] ==
          if Text.AppearsIgnoringCase(term, c.name) then multiset(countries)[c] else 0 {
        Lists.FilterCount(countries, keep, c);
      }
    }
    r
  }

  function FilteredGenres(genres: seq<Genre>, term: string): (r: seq<Genre>)
    ensures Lists.IsSubseq(r, genres)
    ensures forall g :: g in r <==> g in genres && Text.AppearsIgnoringCase(term, g.name)
    ensures forall g :: multiset(r)[g] ==
              if Text.AppearsIgnoringCase(term, g.name) then multiset(genres)[g] else 0
    ensures term == "" ==> r == genres
  {
    var keep := (g: Genre) => Text.IncludesIgnoringCase(g.name, term);
    var r := Lists.Filter(genres, keep);
    assert forall g :: multiset(r)[g] ==
             if Text.AppearsIgnoringCase(term, g.name) then multiset(genres)[g] else 0 by {
      forall g ensures multiset(r)[g] ==
          if Text.AppearsIgnoringCase(term, g.name) then multiset(genres)[g] else 0 {
        Lists.FilterCount(genres, keep, g);
      }
    }
    r
  }

  /** A subsequence of a sorted list is sorted. */
  lemma {:induction false} SubseqSorted<T(!new)>(r: seq<T>, s: seq<T>, le: (T, T) -> bool)
    requires Lists.IsSubseq(r, s) && Lists.SortedBy(s, le)
    ensures Lists.SortedBy(r, le)
    decreases |s|
  {
    if r != [] {
      if r[0] == s[0] && Lists.IsSubseq(r[1..], s[1..]) {
        assert Lists.SortedBy(s[1..], le);
        SubseqSorted(r[1..], s[1..], le);
        Lists.SubseqMembers(r[1..], s[1..]);
        forall j | 0 < j < |r| ensures le(r[0], r[j]) {
          assert r[j] == r[1..][j - 1];
          assert r[j] in s[1..];
          var k :| 0 <= k < |s| - 1 && s[1..][k] == r[j];
          assert s[k + 1] == r[j];
        }
        forall i, j | 0 < i < j < |r| ensures le(r[i], r[j]) {
          assert r[i] == r[1..][i - 1] && r[j] == r[1..][j - 1];
        }
      } else {
        assert Lists.SortedBy(s[1..], le);
        SubseqSorted(r, s[1..], le);
      }
    }
  }

  // ---------------------------------------------------------------------
  // The page

  /** A country list as the sidebar keeps it: entries with stations, by name. */
  ghost predicate CountryListShown(cs: seq<Country>)
  {
    && Lists.SortedBy(cs, CountryNameLe)
    && (forall c :: c in cs ==> c.stationCount > 0)
  }

  /** A genre list as the sidebar keeps it: entries with stations, the larger
      count first. */
  ghost predicate GenreListShown(gs: seq<Genre>)
  {
    && Lists.SortedBy(gs, GenreCountGe)
    && (forall g :: g in gs ==> g.stationCount > 0)
  }

  /** The sidebar tab. */
  datatype Category = CountryTab | GenreTab

  /** The search the station effect issues for the page's selection, if any:
      the selected country's stations on the country tab, the selected
      genre's on the genre tab, each asked with the page's limit. */
  function StationsSearch(category: Category, country: Option<string>, genre: Option<string>)
    : (r: Option<SearchParams>)
    ensures r.Some? <==> ((category == CountryTab && RadioApi.Truthy(country))
                          || (category == GenreTab && RadioApi.Truthy(genre)))
    ensures r.Some? && category == CountryTab ==>
              r.value == RadioApi.CountryParams(country.value, BROWSE_LIMIT)
    ensures r.Some? && category == GenreTab ==>
              r.value == RadioApi.TagParams(genre.value, BROWSE_LIMIT)
  {
    if category == CountryTab && RadioApi.Truthy(country) then
      Some(RadioApi.CountryParams(country.value, BROWSE_LIMIT))
    else if category == GenreTab && RadioApi.Truthy(genre) then
      Some(RadioApi.TagParams(genre.value, BROWSE_LIMIT))
    else None
  }

  class BrowsePage {
    var countries: seq<Country>
    var genres: seq<Genre>
    var selectedCategory: Category
    var selectedCountry: Option<string>
    var selectedGenre: Option<string>
    var stations: seq<Station>
    var isLoading: bool
    var searchTerm: string
    var error: Option<string>

    /** The sidebar lists only ever hold entries with stations, in their
        display order. */
    ghost predicate Valid()
      reads this
    {
      CountryListShown(countries) && GenreListShown(genres)
    }

    /** The page as first rendered: nothing loaded, loading, the country tab. */
    constructor ()
      ensures Valid()
      ensures countries == [] && genres == [] && stations == []
      ensures selectedCategory == CountryTab && selectedCountry == None && selectedGenre == None
      ensures isLoading && searchTerm == "" && error == None
    {
      countries := [];
      genres := [];
      selectedCategory := CountryTab;
      selectedCountry := None;
      selectedGenre := None;
      stations := [];
      isLoading := true;
      searchTerm := "";
      error := None;
    }

    /** `fetchBrowseData`: with both lists fetched, show the countries and
        genres that have stations, in display order, and preselect the
        first country; when either request failed, show the page's error
        and keep the lists as they were. Loading ends either way. */
    method LoadBrowseData(countriesData: Result<seq<Country>, string>,
                          genresData: Result<seq<Genre>, string>)
      requires Valid()
      modifies this`countries, this`genres, this`selectedCountry, this`error, this`isLoading
      ensures Valid() && !isLoading
      ensures countriesData.Success? && genresData.Success? ==>
                countries == DisplayedCountries(countriesData.value)
                && genres == DisplayedGenres(genresData.value)
      ensures countriesData.Success? && genresData.Success? ==>
                selectedCountry == (if countries == [] then old(selectedCountry)
                                    else Some(countries[0].name))
                && error == old(error)
      ensures countriesData.Failure? || genresData.Failure? ==>
                countries == old(countries) && genres == old(genres)
                && selectedCountry == old(selectedCountry)
                && error == Some(BROWSE_ERROR)
    {
      if countriesData.Success? && genresData.Success? {
        var sortedCountries := DisplayedCountries(countriesData.value);
        var sortedGenres := DisplayedGenres(genresData.value);
        var preselected := if sortedCountries != [] then Some(sortedCountries[0].name)
                           else selectedCountry;
        countries, genres, selectedCountry := sortedCountries, sortedGenres, preselected;
      } else {
        error := Some(BROWSE_ERROR);
      }
      isLoading := false;
    }

    /** `fetchStations` once its search has answered: the stations on
        success, or an error naming the selection on failure. Nothing
        happens when the selection issues no search. */
    method ReceiveStations(result: Result<seq<Station>, string>)
      requires Valid()
      modifies this
      ensures Valid()
      ensures var search := StationsSearch(selectedCategory, selectedCountry, selectedGenre);
        && (search.None? ==> stations == old(stations) && error == old(error) && isLoading == old(isLoading))
        && (search.Some? && result.Success? ==>
              stations == result.value && error == old(error) && !isLoading)
        && (search.Some? && result.Failure? ==>
              stations == old(stations) && !isLoading
              && error == Some("Failed to load stations for "
                               + (if selectedCategory == CountryTab then selectedCountry.value
                                  else selectedGenre.value) + "."))
      ensures countries == old(countries) && genres == old(genres)
      ensures selectedCategory == old(selectedCategory)
      ensures selectedCountry == old(selectedCountry) && selectedGenre == old(selectedGenre)
      ensures searchTerm == old(searchTerm)
    {
      if selectedCategory == CountryTab && RadioApi.Truthy(selectedCountry) {
        isLoading := true;
        match result {
          case Success(data) => stations := data;
          case Failure(_) => error := Some("Failed to load stations for " + selectedCountry.value + ".");
        }
        isLoading := false;
      } else if selectedCategory == GenreTab && RadioApi.Truthy(selectedGenre) {
        isLoading := true;
        match result {
          case Success(data) => stations := data;
          case Failure(_) => error := Some("Failed to load stations for " + selectedGenre.value + ".");
        }
        isLoading := false;
      }
    }

    /** `handleCountrySelect`. */
    method HandleCountrySelect(country: string)
      requires Valid()
      modifies this`selectedCountry, this`selectedCategory
      ensures Valid()
      ensures selectedCountry == Some(country) && selectedCategory == CountryTab
      ensures country != "" ==>
                StationsSearch(selectedCategory, selectedCountry, selectedGenre)
                  == Some(RadioApi.CountryParams(country, BROWSE_LIMIT))
    {
      selectedCountry := Some(country);
      selectedCategory := CountryTab;
    }

    /** `handleGenreSelect`. */
    method HandleGenreSelect(genre: string)
      requires Valid()
      modifies this`selectedGenre, this`selectedCategory
      ensures Valid()
      ensures selectedGenre == Some(genre) && selectedCategory == GenreTab
      ensures genre != "" ==>
                StationsSearch(selectedCategory, selectedCountry, selectedGenre)
                  == Some(RadioApi.TagParams(genre, BROWSE_LIMIT))
    {
      selectedGenre := Some(genre);
      selectedCategory := GenreTab;
    }

    /** The tab buttons: switch the category and keep both selections. */
    method SelectCategory(category: Category)
      requires Valid()
      modifies this`selectedCategory
      ensures Valid() && selectedCategory == category
    {
      selectedCategory := category;
    }

    /** The search box's change handler. */
    method SetSearchTerm(term: string)
      requires Valid()
      modifies this`searchTerm
      ensures Valid() && searchTerm == term
    {
      searchTerm := term;
    }

    /** The countries the sidebar lists under the current search term. */
    function VisibleCountries(): (r: seq<Country>)
      reads this
      requires Valid()
      ensures r == FilteredCountries(countries, searchTerm)
      ensures Lists.IsSubseq(r, countries)
      ensures Lists.SortedBy(r, CountryNameLe)
      ensures forall c :: c in r <==> c in countries && Text.AppearsIgnoringCase(searchTerm, c.name)
      ensures forall c :: c in r ==> c.stationCount > 0
    {
      var r := FilteredCountries(countries, searchTerm);
      CountryOrderIsPreorder();
      assert Lists.SortedBy(countries, CountryNameLe);
      SubseqSorted(r, countries, CountryNameLe);
      r
    }

    /** The genres the sidebar lists under the current search term. */
    function VisibleGenres(): (r: seq<Genre>)
      reads this
      requires Valid()
      ensures r == FilteredGenres(genres, searchTerm)
      ensures Lists.IsSubseq(r, genres)
      ensures Lists.SortedBy(r, GenreCountGe)
      ensures forall g :: g in r <==> g in genres && Text.AppearsIgnoringCase(searchTerm, g.name)
      ensures forall g :: g in r ==> g.stationCount > 0
    {
      var r := FilteredGenres(genres, searchTerm);
      assert Lists.SortedBy(genres, GenreCountGe);
      SubseqSorted(r, genres, GenreCountGe);
      r
    }
  }
}
