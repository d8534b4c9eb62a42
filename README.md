# Weather card: the state controller and the oracle client, in Dafny

The application shows a weather card per city. The user searches a city, a
generative model (the oracle) invents weather and a one-sentence description
for it, and the user may pin cities to a list kept in the browser's local
storage. This project models the logic behind that screen:

- `types.dfy` (module `Types`): the closed `WeatherType` enum and its string
  forms, the `Language` pair `zh`/`en`, and the `WeatherData` record.
- `gemini_service.dfy` (module `GeminiService`): what the oracle client does
  with an answer. A weather answer becomes a record with the caller's city,
  an id made of the city and a timestamp, and (in English) a capitalised
  label; no answer gives no record. A description answer is returned as it
  is, or replaced by one of two localised fallback sentences.
- `app.dfy` (module `App`): the top-level component as a class `AppState`
  whose fields are the component's state (`language`, `pinnedCities`,
  `searchQuery`, `searchResult`, `activeWeather`, `aiDescription`,
  `loadingDesc`, `searching`) plus the storage entry `stored`. Each handler
  is a method: `Startup`, `SetSearchQuery`, `SearchStart`/`SearchComplete`,
  `Pin`, `Delete`, `SelectCard`, `ToggleLanguage`. The description effect is
  `DescIssue`/`DescResolve`: its per-run `isMounted` flag becomes a
  generation counter `descGen`. Every change of the active record or the
  language runs the effect once more under a new generation, and an answer
  is applied only if it belongs to the latest run (`current`).
- `js_string.dfy` (module `JsString`): the JavaScript string operations used
  above (`toLowerCase` and `toUpperCase` on ASCII letters, `trim` with the
  white space of sections 12.2 and 12.3 of ECMA-262, decimal rendering of
  an integer) and `LastIndexOf`, the helper that reads an id back. `nullable.dfy` holds the option type standing
  for `T | null`.

Two members of `app.dfy` replay the intended behaviour. In
`StaleDescriptionScenario`, two descriptions resolve out of order and only
the later selection's text is shown. `TokyoPinnedOnce` is the
pin-then-duplicate scenario: from the seed list, "Tokyo" can be pinned and
a later "TOKYO" cannot.

Behaviour of the code that the model keeps as written:

- The oracle's `type` is cast without a local check
  (services/geminiService.ts:53); the model trusts the response schema.
- A delete that empties the list clears the active record and the
  description even when the active record was an unpinned search result
  (App.tsx:106-108). It also leaves `loadingDesc` as it was, so a description
  still loading at that moment keeps the loading indicator on
  (`DescriptionEffect` with nothing active).
- A delete of an unknown id is not a pure no-op: the list is rewritten to
  storage as it was.
- Searches have no staleness guard (App.tsx:73-78). Overlapping searches each
  apply their result, and the first to finish clears `searching`.
- The search sends the untrimmed query, so the record's city keeps any
  surrounding spaces. Only the emptiness test trims.

## Model

| member | source | states |
|---|---|---|
| Types.WeatherTypeName | types.ts:1-6 | every kind's string form is one of the four schema values |
| Types.ParseWeatherType | types.ts:1-6 | a string names a kind exactly when it is one of the four schema values, and then names that kind |
| Types.WeatherTypeRoundTrip | types.ts:1-6 | reading a kind's string form gives the kind back |
| Types.WeatherTypeNameInjective | types.ts:2-5 | the four kinds have four distinct string forms |
| Types.SchemaEnumIsWeatherTypes | services/geminiService.ts:10 | every value of the schema's `type` enum is the string form of some kind (with ParseWeatherType, the two sets coincide) |
| Types.LanguageCode | types.ts:18 | a language is written as a two-letter code |
| Types.ParseLanguage | types.ts:18 | exactly `'zh'` and `'en'` are languages |
| Types.LanguageRoundTrip | types.ts:18 | reading a language's code gives the language back |
| Types.ToggleLanguage | App.tsx:171 | the toggle always changes the language |
| Types.ToggleInvolutive | App.tsx:171 | toggling twice restores the language |
| JsString.ToLower | App.tsx:86 | lower-casing keeps the length, leaves no ASCII upper-case letter, and changes a character only to the letter whose upper-case form it was |
| JsString.SameCityNameIgnoresCase | App.tsx:86 | names of equal length whose characters agree up to ASCII letter case are the same city |
| JsString.SameCityNameOnlyCase | App.tsx:86 | conversely, names that are the same city have equal length and characters that agree up to ASCII letter case |
| JsString.TrimStart | App.tsx:67 | leading trim drops exactly a white-space prefix and leaves a suffix not starting with white space |
| JsString.TrimEnd | App.tsx:67 | trailing trim drops exactly a white-space suffix and leaves a prefix not ending with white space |
| JsString.Trim | App.tsx:67 | trimming gives a contiguous slice of the query that neither starts nor ends with white space, with only white space dropped before and after it |
| JsString.TrimEmptyIffBlank | App.tsx:67 | a query trims to empty exactly when it is all white space |
| JsString.NatToDecimal | services/geminiService.ts:51 | a timestamp renders as a non-empty run of decimal digits with no leading zero (only 0 renders as "0") |
| JsString.DecimalRoundTrip | services/geminiService.ts:51 | the rendered digits read back as the timestamp |
| GeminiService.CapitaliseLabel | services/geminiService.ts:45-48 | in English a non-empty label has its first character upper-cased and the rest kept; in Chinese, or when empty, it is unchanged; length is kept |
| GeminiService.CapitaliseIdempotent | services/geminiService.ts:45-48 | capitalising twice is the same as once |
| GeminiService.MakeId | services/geminiService.ts:51 | an id is the city, then a dash, then decimal digits without a leading zero that read as the timestamp |
| GeminiService.IdRoundTrip | services/geminiService.ts:51 | an id splits back at its last dash into the caller's city and the timestamp, whatever dashes the city contains |
| GeminiService.MakeIdInjective | services/geminiService.ts:51 | two ids are equal only for the same city and timestamp |
| GeminiService.FetchCityWeather | services/geminiService.ts:39-62 | a record exactly when the oracle answered with fields (a throw or empty text gives null); its city is the caller's, its id is exactly MakeId of that city and the timestamp (so it splits back into both), kind and numbers are the oracle's unchecked, the label is capitalised per language |
| GeminiService.EmptyReplyFallback | services/geminiService.ts:81 | the empty-answer sentence names the city and ends with the full stop of its language |
| GeminiService.FailureFallback | services/geminiService.ts:84 | the failure sentence names the city and ends with the weather kind's name |
| GeminiService.GenerateDescription | services/geminiService.ts:81-85 | never empty; a non-empty answer verbatim, an empty answer gives the "Experience the atmosphere" / "感受…的天气之美。" sentence, a failure the "Current weather in" / "当前…天气：" sentence |
| GeminiService.FallbacksDiffer | services/geminiService.ts:81-84 | the empty-answer and failure sentences never coincide |
| GeminiService.FailureFallbackNamesKind | services/geminiService.ts:84 | the failure sentence determines the weather kind |
| App.LoadPinned | App.tsx:24-44 | the startup list is never empty; it is the stored list exactly when that is a non-empty parsed list, and the seed list otherwise |
| App.StartupFallback | App.tsx:7-10 | an absent, unparsable or empty stored value gives the two-city list Beijing, London |
| App.PersistRoundTrip | App.tsx:25-31 | a written non-empty list reloads unchanged (ids included); a written empty list reloads as the seed list |
| App.ContainsCity | App.tsx:86 | the `some` test is false on an empty list, true when the first name matches, and true only if some pinned name matches |
| App.ContainsCityIff | App.tsx:86 | the duplicate test holds exactly when some pinned city has the same lower-cased name |
| App.ContainsCityAppend | App.tsx:86-90 | after appending a record, its name (in any case) is a duplicate and earlier duplicates remain |
| App.TokyoPinnedOnce | App.tsx:82-95 | from the seed list "Tokyo" is not a duplicate; after pinning it, "TOKYO" is |
| App.RemoveById | App.tsx:100 | the filtered list is no longer and holds only entries of the old list with another id |
| App.RemoveByIdKeepsOthers | App.tsx:100 | every entry with another id survives |
| App.RemoveByIdAppend | App.tsx:100 | the filter works piecewise over concatenation, so survivors keep their order |
| App.RemoveByIdUnknown | App.tsx:100 | deleting an id no entry has leaves the list unchanged |
| App.ActiveAfterDelete | App.tsx:104-109 | after a delete: the new first entry if the active record had the id and entries remain; none exactly when no entry remains (or nothing was active); otherwise unchanged |
| App.DeleteKeepsActivePinned | App.tsx:100-109 | if the active record was pinned, after a delete it is a surviving entry or none |
| App.RequestFor | App.tsx:48-53 | a description request exists exactly when a record is active, and asks for its kind and city in the current language |
| App.StaleDescriptionScenario | App.tsx:47-62 | after selecting London while Beijing's description is pending, and the two answers arriving in reverse order, London's text is shown and loading is off |
| App.AppState.constructor | App.tsx:14-21 | the initial state: Chinese, nothing pinned, searched, active or loading, empty texts |
| App.AppState.DescIssue | App.tsx:47-62 | a run moves to a newer generation than any earlier request, issues the request for the active record and language, and sets the loading flag only when a record is active |
| App.AppState.DescResolve | App.tsx:53-57 | an answer sets the description and clears the loading flag only for the latest run's request, and then describes the active record in the current language; a superseded answer changes nothing |
| App.AppState.Startup | App.tsx:24-44 | the pinned list becomes the stored list or the seed list and its first element becomes active, running the description effect |
| App.AppState.SetSearchQuery | App.tsx:159 | typing sets the query |
| App.AppState.SearchStart | App.tsx:65-71 | an all-white-space query changes nothing; otherwise searching is on, the old result is cleared and the untrimmed query and language are captured |
| App.AppState.SearchComplete | App.tsx:73-78 | a record becomes both the search result and the active record (running the description effect); no record leaves both; searching is off either way |
| App.AppState.Pin | App.tsx:82-95 | no result or a case-insensitive duplicate changes nothing; otherwise the result is appended, exactly the new list is stored, and result and query are cleared |
| App.AppState.Delete | App.tsx:98-110 | the list becomes the filtered list and is stored; the active record follows ActiveAfterDelete; the description is cleared when the list is empty; the effect runs only if the active record changed |
| App.AppState.SelectCard | App.tsx:228-236 | clicking a pinned card makes it active, running the effect when that changes the active record |
| App.AppState.ToggleLanguage | App.tsx:171 | the language flips and the effect always runs again, superseding every pending request |

## Left out

- Rendering: the translation table, the date string, the background
  gradients, the card component and the weather animations
  (App.tsx:112-313, components/WeatherAnimations.tsx). They hold no logic.
- The model client, the prompts and the network (services/geminiService.ts:1-37,
  65-79). Their outcome is a parameter (`WeatherOutcome`, `DescOutcome`).
- GeminiService.FetchCityWeather: does not model an answer whose `type`
  lies outside the four kinds. The code casts it unchecked and the schema
  forbids it; a Dafny `WeatherType` cannot hold it.
- `Math.round` on floating-point numbers: temperatures arrive as integers.
- `Date.now()`: the timestamp is a parameter.
- `localStorage`, `JSON.parse` and `JSON.stringify`: the entry is a
  `StoredValue`. An empty string or a missing entry is `Absent`. A parse
  that throws is `Unparsable`, and so are `null` (whose `.length` throws)
  and a parsed value with no positive length.
  A list of records is `Parsed`. The code tests only `parsed.length > 0`
  (App.tsx:29), so it also installs any other parsed value with a positive
  length: a non-empty JSON string, an object with a numeric `length`, or a
  list of non-records, with element 0 made active. `StoredValue` cannot
  represent these, and the model sends them to the seed list. A write stores `Parsed(list)`, so
  serialisation is assumed to round-trip.
- JsString.ToLower: lower-cases ASCII letters only, not the full Unicode
  case mapping of `toLowerCase`. So names that differ only in non-ASCII case
  ("Éze" and "éze") are duplicates in the code but not in the model
  (SameCityName, SameCityNameOnlyCase, ContainsCity and Pin inherit this).
- GeminiService.CapitaliseLabel: upper-cases ASCII letters only. It works
  on whole characters, not UTF-16 code units, and ignores case mappings
  that change length.
- React's scheduling: each handler is one atomic step, and the async
  handlers are split at their `await`. Effect dependencies compare by
  reference; the model compares records by value. A fresh search result
  always re-runs the effect.
- Unmounting the component, which would also silence the last pending
  description: the application never unmounts.
- The startup effect runs once after construction; the model does not stop
  a caller from running `Startup` again.
- `preventDefault`, `stopPropagation` and `console.error`: event plumbing
  and logging.
