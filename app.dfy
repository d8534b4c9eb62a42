/** The application state controller (App.tsx): the persisted city list, the
    search, the pinned-city handlers, the active selection and the
    description effect with its cancellation. */
module App {
  import opened Nullable
  import opened Types
  import opened JsString
  import opened GeminiService

  /** What reading the storage entry gives: nothing (or an empty string), a
      value whose parse throws or that has no positive length, or a parsed
      list of records. */
  datatype StoredValue = Absent | Unparsable | Parsed(cities: seq<WeatherData>)

  /** The seed list used when the stored list is missing, corrupt or empty. */
  const DefaultCities: seq<WeatherData> := [
    WeatherData("1", "Beijing", Sunny, 28, 31, 22, "晴朗"),
    WeatherData("2", "London", Rainy, 15, 18, 12, "小雨")
  ]

  /** The list the startup effect installs: a non-empty parsed list as it
      is, and the seed list in every other case. Never empty. */
  function LoadPinned(saved: StoredValue): (r: seq<WeatherData>)
    ensures |r| > 0
    ensures r == DefaultCities || (saved.Parsed? && r == saved.cities)
    ensures saved.Parsed? && |saved.cities| > 0 ==> r == saved.cities
    ensures !(saved.Parsed? && |saved.cities| > 0) ==> r == DefaultCities
  {
    if saved.Parsed? && |saved.cities| > 0 then saved.cities else DefaultCities
  }

  /** A missing, unparsable or empty stored value gives [Beijing, London]. */
  lemma StartupFallback(saved: StoredValue)
    requires saved.Absent? || saved.Unparsable? || saved == Parsed([])
    ensures LoadPinned(saved) == DefaultCities
    ensures |LoadPinned(saved)| == 2
    ensures LoadPinned(saved)[0].city == "Beijing" && LoadPinned(saved)[1].city == "London"
  {
  }

  /** Writing a non-empty list and reloading it gives the same list, order and
      every field (ids included) preserved; an empty list written by deleting
      every city reloads as the seed list instead. */
  lemma PersistRoundTrip(cities: seq<WeatherData>)
    ensures |cities| > 0 ==> LoadPinned(Parsed(cities)) == cities
    ensures |cities| == 0 ==> LoadPinned(Parsed(cities)) == DefaultCities
  {
  }

  /** `pinnedCities.some(c => c.city.toLowerCase() === city.toLowerCase())`. */
  function ContainsCity(cities: seq<WeatherData>, city: string): (r: bool)
    ensures r ==> |cities| > 0
    ensures |cities| > 0 && SameCityName(cities[0].city, city) ==> r
    ensures r ==> exists i :: 0 <= i < |cities| && SameCityName(cities[i].city, city)
  {
    |cities| > 0 && (SameCityName(cities[0].city, city) || ContainsCity(cities[1..], city))
  }

  lemma {:induction false} ContainsCityIff(cities: seq<WeatherData>, city: string)
    ensures ContainsCity(cities, city) <==>
            exists i :: 0 <= i < |cities| && SameCityName(cities[i].city, city)
  {
    if |cities| > 0 {
      ContainsCityIff(cities[1..], city);
      if ContainsCity(cities[1..], city) {
        var i :| 0 <= i < |cities[1..]| && SameCityName(cities[1..][i].city, city);
      }
      if exists i :: 0 <= i < |cities| && SameCityName(cities[i].city, city) {
        var i :| 0 <= i < |cities| && SameCityName(cities[i].city, city);
      }
    }
  }

  /** After a city is appended, any name matching it case-insensitively is
      found, and every name found before is still found. */
  lemma {:induction false} ContainsCityAppend(cities: seq<WeatherData>, w: WeatherData, city: string)
    ensures ContainsCity(cities + [w], city) <==> ContainsCity(cities, city) || SameCityName(w.city, city)
  {
    if |cities| > 0 {
      assert (cities + [w])[1..] == cities[1..] + [w];
      ContainsCityAppend(cities[1..], w, city);
    }
  }

  /** From the seed list, a searched "Tokyo" is not a duplicate; once it is
      pinned, a searched "TOKYO" is. */
  lemma TokyoPinnedOnce(tokyo: WeatherData)
    requires tokyo.city == "Tokyo"
    ensures !ContainsCity(DefaultCities, "Tokyo")
    ensures ContainsCity(DefaultCities + [tokyo], "TOKYO")
  {
  }

  /** `pinnedCities.filter(c => c.id !== id)`. */
  function RemoveById(cities: seq<WeatherData>, id: string): (r: seq<WeatherData>)
    ensures |r| <= |cities|
    ensures forall x :: x in r ==> x in cities && x.id != id
  {
    if cities == [] then []
    else if cities[0].id == id then RemoveById(cities[1..], id)
    else [cities[0]] + RemoveById(cities[1..], id)
  }

  /** Every entry with another id survives the delete. */
  lemma {:induction false} RemoveByIdKeepsOthers(cities: seq<WeatherData>, id: string)
    ensures forall x :: x in cities && x.id != id ==> x in RemoveById(cities, id)
  {
    if cities != [] {
      RemoveByIdKeepsOthers(cities[1..], id);
    }
  }

  /** The filter works piecewise, so the survivors keep their relative order. */
  lemma {:induction false} RemoveByIdAppend(a: seq<WeatherData>, b: seq<WeatherData>, id: string)
    ensures RemoveById(a + b, id) == RemoveById(a, id) + RemoveById(b, id)
  {
    if a == [] {
      assert a + b == b;
    } else {
      assert (a + b)[1..] == a[1..] + b;
      RemoveByIdAppend(a[1..], b, id);
    }
  }

  /** Deleting an id no entry has leaves the list as it was. */
  lemma {:induction false} RemoveByIdUnknown(cities: seq<WeatherData>, id: string)
    requires forall i :: 0 <= i < |cities| ==> cities[i].id != id
    ensures RemoveById(cities, id) == cities
  {
    if cities != [] {
      RemoveByIdUnknown(cities[1..], id);
    }
  }

  /** The active record after a delete that left `remaining`: the new first
      entry when the deleted id was the active one and entries remain, none
      when no entry remains (whatever was active, an unpinned search result
      included), and otherwise the same record. */
  function ActiveAfterDelete(active: Option<WeatherData>, id: string, remaining: seq<WeatherData>)
    : (r: Option<WeatherData>)
    ensures r.None? <==> |remaining| == 0 || active.None?
    ensures active.Some? && active.value.id == id && |remaining| > 0 ==> r == Some(remaining[0])
    ensures !(active.Some? && active.value.id == id) && |remaining| > 0 ==> r == active
  {
    if active.Some? && active.value.id == id && |remaining| > 0 then Some(remaining[0])
    else if |remaining| == 0 then None
    else active
  }

  /** A delete keeps the active record among the pinned ones: if it was a
      pinned entry (or nothing was active), afterwards it is a surviving
      entry or nothing. */
  lemma DeleteKeepsActivePinned(cities: seq<WeatherData>, active: Option<WeatherData>, id: string)
    requires active.Some? ==> active.value in cities
    ensures var rest := RemoveById(cities, id);
            var r := ActiveAfterDelete(active, id, rest);
            r.Some? ==> r.value in rest
  {
    RemoveByIdKeepsOthers(cities, id);
  }

  /** An outstanding description request: its generation and what the
      effect passed to the oracle. */
  datatype DescRequest = DescRequest(gen: nat, kind: WeatherType, city: string, lang: Language)

  /** What a search captured when it was submitted. */
  datatype SearchRequest = SearchRequest(query: string, lang: Language)

  /** The request the description effect issues for an (active record,
      language) pair: none when nothing is active. */
  function RequestFor(gen: nat, active: Option<WeatherData>, lang: Language): (r: Option<DescRequest>)
    ensures r.Some? <==> active.Some?
    ensures r.Some? ==>
      && r.value.gen == gen && r.value.kind == active.value.kind
      && r.value.city == active.value.city && r.value.lang == lang
  {
    if active.Some? then Some(DescRequest(gen, active.value.kind, active.value.city, lang)) else None
  }

  class AppState {
    var language: Language
    var pinnedCities: seq<WeatherData>
    var searchQuery: string
    var searchResult: Option<WeatherData>
    var activeWeather: Option<WeatherData>
    var aiDescription: string
    var loadingDesc: bool
    var searching: bool
    /** The local-storage entry under the key "atmosphere_pinned_cities". */
    var stored: StoredValue
    /** The generation of the latest run of the description effect; a run
        supersedes (unmounts) every earlier one. */
    var descGen: nat
    /** The request of the latest run, if it had an active record. Only
        this request is still mounted: every earlier one carries a smaller
        generation. */
    var current: Option<DescRequest>

    /** The authoritative request is always the one for what is on screen,
        tagged with the latest generation. */
    ghost predicate Valid()
      reads this`descGen, this`current, this`activeWeather, this`language
    {
      current == RequestFor(descGen, activeWeather, language)
    }

    /** What the description effect does between two states: nothing when
        it did not run (neither the active record nor the language changed),
        and otherwise one new run, which supersedes every earlier request and
        turns the loading flag on when there is an active record to describe
        (with nothing active, no request is issued and the flag is left as
        it was). */
    twostate predicate DescriptionEffect(ran: bool)
      reads this`descGen, this`loadingDesc, this`activeWeather
    {
      if !ran then
        descGen == old(descGen) && loadingDesc == old(loadingDesc)
      else
        descGen == old(descGen) + 1 && loadingDesc == (activeWeather.Some? || old(loadingDesc))
    }

    /** The initial `useState` values; the storage entry holds `saved`. */
    constructor (saved: StoredValue)
      ensures Valid()
      ensures language == Zh && pinnedCities == [] && searchQuery == ""
      ensures searchResult.None? && activeWeather.None? && aiDescription == ""
      ensures !loadingDesc && !searching && stored == saved
    {
      language := Zh;
      pinnedCities := [];
      searchQuery := "";
      searchResult := None;
      activeWeather := None;
      aiDescription := "";
      loadingDesc := false;
      searching := false;
      stored := saved;
      descGen := 0;
      current := None;
    }

    /** One run of the description effect: the previous run is unmounted
        by moving to a new generation, and if a record is active the loading
        flag goes on and a request for (its kind, its city, the language) is
        issued. */
    method DescIssue()
      modifies this`descGen, this`current, this`loadingDesc
      ensures Valid()
      ensures DescriptionEffect(true)
      ensures current.Some? ==> current.value.gen > old(descGen)
    {
      descGen := descGen + 1;
      current := RequestFor(descGen, activeWeather, language);
      if current.Some? {
        loadingDesc := true;
      }
    }

    /** A description request resolves with the oracle's outcome. Its text
        is shown, and the loading flag cleared, only when the request is the
        latest run's (its generation is the current one); a superseded
        request changes nothing. */
    method DescResolve(req: DescRequest, outcome: DescOutcome)
      requires Valid()
      modifies this`aiDescription, this`loadingDesc
      ensures Valid()
      ensures current == Some(req) ==>
        && req.gen == descGen
        && aiDescription == GenerateDescription(activeWeather.value.kind, activeWeather.value.city,
                                                language, outcome)
        && !loadingDesc
      ensures current != Some(req) ==>
        aiDescription == old(aiDescription) && loadingDesc == old(loadingDesc)
    {
      if current == Some(req) {
        aiDescription := GenerateDescription(req.kind, req.city, req.lang, outcome);
        loadingDesc := false;
      }
    }

    /** The startup effect: install the stored list, or the seed list when
        it is missing, corrupt or empty, and make its first element active. */
    method Startup()
      requires Valid()
      modifies this`pinnedCities, this`activeWeather
      modifies this`descGen, this`current, this`loadingDesc
      ensures Valid()
      ensures pinnedCities == LoadPinned(stored)
      ensures activeWeather == Some(pinnedCities[0])
      ensures DescriptionEffect(activeWeather != old(activeWeather))
    {
      var loaded := LoadPinned(stored);
      var previous := activeWeather;
      pinnedCities := loaded;
      activeWeather := Some(loaded[0]);
      if activeWeather != previous {
        DescIssue();
      }
    }

    /** Typing in the search box. */
    method SetSearchQuery(q: string)
      requires Valid()
      modifies this`searchQuery
      ensures Valid()
      ensures searchQuery == q
    {
      searchQuery := q;
    }

    /** The synchronous half of `handleSearch`: a query that is all white
        space does nothing; otherwise the search starts, the previous result
        is cleared, and the query (untrimmed) and language are captured. */
    method SearchStart() returns (req: Option<SearchRequest>)
      requires Valid()
      modifies this`searching, this`searchResult
      ensures Valid()
      ensures Blank(searchQuery) ==>
        req.None? && searching == old(searching) && searchResult == old(searchResult)
      ensures !Blank(searchQuery) ==>
        req == Some(SearchRequest(searchQuery, language)) && searching && searchResult.None?
    {
      TrimEmptyIffBlank(searchQuery);
      if Trim(searchQuery) == "" {
        return None;
      }
      searching := true;
      searchResult := None;
      req := Some(SearchRequest(searchQuery, language));
    }

    /** The half of `handleSearch` after the oracle answers. There is no
        staleness check: whichever search completes applies its record, and
        the first to complete turns `searching` off. */
    method SearchComplete(req: SearchRequest, stamp: nat, outcome: WeatherOutcome)
      requires Valid()
      modifies this`searchResult, this`activeWeather, this`searching
      modifies this`descGen, this`current, this`loadingDesc
      ensures Valid()
      ensures !searching
      ensures outcome.Ok? ==>
        && searchResult == FetchCityWeather(req.query, req.lang, stamp, outcome)
        && activeWeather == searchResult
      ensures !outcome.Ok? ==>
        searchResult == old(searchResult) && activeWeather == old(activeWeather)
      ensures DescriptionEffect(outcome.Ok?)
    {
      var result := FetchCityWeather(req.query, req.lang, stamp, outcome);
      if result.Some? {
        searchResult := result;
        activeWeather := result;
      }
      searching := false;
      if result.Some? {
        DescIssue();
      }
    }

    /** `handlePin`: without a search result, or when a pinned city has the
        same name up to case, nothing changes; otherwise the result is
        appended, the new list written to storage, and the search result and
        query cleared. */
    method Pin()
      requires Valid()
      modifies this`pinnedCities, this`stored, this`searchResult, this`searchQuery
      ensures Valid()
      ensures old(searchResult).None? || ContainsCity(old(pinnedCities), old(searchResult).value.city) ==>
        && pinnedCities == old(pinnedCities) && stored == old(stored)
        && searchResult == old(searchResult) && searchQuery == old(searchQuery)
      ensures old(searchResult).Some? && !ContainsCity(old(pinnedCities), old(searchResult).value.city) ==>
        && pinnedCities == old(pinnedCities) + [old(searchResult).value]
        && stored == Parsed(pinnedCities)
        && searchResult.None? && searchQuery == ""
    {
      if searchResult.None? {
        return;
      }
      if ContainsCity(pinnedCities, searchResult.value.city) {
        return;
      }
      var newPinned := pinnedCities + [searchResult.value];
      pinnedCities := newPinned;
      stored := Parsed(newPinned);
      searchResult := None;
      searchQuery := "";
    }

    /** `handleDelete`: keep the entries with another id and write them to
        storage. If the active record had that id and entries remain, the
        first becomes active; if none remain, nothing is active and the
        description is cleared (even when the active record was an unpinned
        search result); otherwise the active record stays. */
    method Delete(id: string)
      requires Valid()
      modifies this`pinnedCities, this`stored, this`activeWeather, this`aiDescription
      modifies this`descGen, this`current, this`loadingDesc
      ensures Valid()
      ensures pinnedCities == RemoveById(old(pinnedCities), id) && stored == Parsed(pinnedCities)
      ensures activeWeather == ActiveAfterDelete(old(activeWeather), id, pinnedCities)
      ensures aiDescription == if |pinnedCities| == 0 then "" else old(aiDescription)
      ensures DescriptionEffect(activeWeather != old(activeWeather))
    {
      var newPinned := RemoveById(pinnedCities, id);
      pinnedCities := newPinned;
      stored := Parsed(newPinned);
      var next := ActiveAfterDelete(activeWeather, id, newPinned);
      if |newPinned| == 0 {
        aiDescription := "";
      }
      if next != activeWeather {
        activeWeather := next;
        DescIssue();
      }
    }

    /** Clicking a pinned card makes its record active. */
    method SelectCard(i: nat)
      requires Valid() && i < |pinnedCities|
      modifies this`activeWeather
      modifies this`descGen, this`current, this`loadingDesc
      ensures Valid()
      ensures activeWeather == Some(pinnedCities[i])
      ensures DescriptionEffect(activeWeather != old(activeWeather))
    {
      var previous := activeWeather;
      activeWeather := Some(pinnedCities[i]);
      if activeWeather != previous {
        DescIssue();
      }
    }

    /** The language button flips zh and en, which always runs the
        description effect again and supersedes every pending request. */
    method ToggleLanguage()
      requires Valid()
      modifies this`language
      modifies this`descGen, this`current, this`loadingDesc
      ensures Valid()
      ensures language == Types.ToggleLanguage(old(language))
      ensures DescriptionEffect(true)
    {
      language := Types.ToggleLanguage(language);
      DescIssue();
    }
  }

  /** Selecting another city before the first description arrives: the late
      answer for the first city is dropped and the second city's is shown. */
  method StaleDescriptionScenario() returns (shown: string, loading: bool)
    ensures shown == "Rain over the Thames." && !loading
  {
    var app := new AppState(Absent);
    app.Startup();
    var first := app.current.value;
    app.SelectCard(1);
    var second := app.current.value;
    app.DescResolve(second, DescReply("Rain over the Thames."));
    app.DescResolve(first, DescReply("Sun over the Forbidden City."));
    shown, loading := app.aiDescription, app.loadingDesc;
  }
}
