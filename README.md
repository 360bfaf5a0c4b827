# Weather dashboard core, modelled in Dafny

This project models the logic inside a small weather dashboard. The dashboard is a
browser page backed by a Flask server that relays the OpenWeatherMap API. The model
covers two pieces.

- **Browser page** (`static/js/script.js`):
  - the daily forecast aggregator, which reduces the 3-hourly forecast list to at most five entries;
  - the metric/imperial toggle and the temperature conversion it drives;
  - the theme chosen from the condition text and the icon code;
  - the favorites list, which the favorite button toggles and which is re-saved to browser storage after every toggle.
- **Server** (`app.py`): the in-memory response cache with its 300-second validity, and the cache keys built from the city name.

Modules:

- `TextOps` (`textops.dfy`) holds the string primitives the code relies on: `includes`, `endsWith` and lower-casing.
- `Forecast` (`forecast.dfy`) holds the aggregator. `DailySummary` is the specification. `SelectDaily` is the imperative two-pass loop, proved equal to it. Lemmas characterise each pass.
- `Display` (`display.dfy`) holds the unit flip, `ConvertTemp` over exact reals, and the theme selector. The selector is proved equal to a first-match rule table.
- `Favorites` (`favorites.dfy`) holds the list operations (`indexOf`, remove-first, toggle) and their lemmas.
- `Dashboard` (`dashboard.dfy`) holds the page's session state as a class. Its fields are the unit, the current city, the favorites and the storage entry. Its methods are the unit toggle, the favorite toggle and the membership test.
- `Cache` (`cache.dfy`) holds the server cache as a class over a `map`, with the clock passed in as `now`, plus the key construction.

Behaviour of the code worth noting:

- **Midday test.** The primary pass treats an entry as a midday sample when its whole `dt_txt` contains `"12:00:00"` (script.js:195).
- **Fallback pass.** The fallback pass starts from a fresh set of dates (script.js:203). Dates that the primary pass already picked can therefore appear twice. See Findings.
- **Toggling twice.** In a list without duplicates, toggling a city twice restores the list when the city was absent or was already the last entry. Otherwise the city moves to the end (`Favorites.ToggleTwicePresent`). A stored list can hold duplicates, because it is loaded as it is (script.js:29). Each toggle of a present city then removes only its first copy. For example, toggling "A" twice in ["A", "A"] leaves an empty list.
- **Loading favorites.** Only the absent and well-formed cases are modelled: nothing stored gives no favorites, and a stored list is used as it is. Corrupt stored text makes `JSON.parse` throw at start-up (script.js:29).

## Model

| member | source | states |
|---|---|---|
| TextOps.Contains | static/js/script.js:195 | `includes`: true exactly when some window of the text equals the searched text |
| TextOps.EndsWith | static/js/script.js:249 | `endsWith`: true exactly when the text is some prefix followed by the suffix |
| Forecast.DateKey | static/js/script.js:194 | `split(' ')[0]`: a prefix of the stamp with no space, followed in the stamp by a space or by nothing |
| Forecast.FirstPerDate | static/js/script.js:193-199 | one pass: no more entries than the list, each from the list, qualifying, and of a date not yet seen |
| Forecast.TakeShown | static/js/script.js:215 | `slice(0, 5)`: the first min(5, length) entries |
| Forecast.SelectDaily | static/js/script.js:190-215 | the two forEach passes with their sets, then `slice(0, 5)`, compute exactly `DailySummary` |
| Forecast.FirstPerDateDates | static/js/script.js:193-199 | a pass picks only qualifying entries (midday ones in the primary pass), of pairwise distinct dates, none already seen |
| Forecast.FirstPerDateMembers | static/js/script.js:193-199 | an entry is picked exactly when it is the earliest qualifying entry of a date not yet seen |
| Forecast.FirstPerDateInOrder | static/js/script.js:193-199 | picked entries keep their input order (a subsequence of the list) |
| Forecast.FirstPerDateCovers | static/js/script.js:193-199 | every qualifying entry's date is already seen or among the picked dates |
| Forecast.DailySummary | static/js/script.js:190-215 | what the panel shows: at most 5 entries, each taken from the list; an empty list gives an empty result |
| Forecast.DailySummaryPrimaryFull | static/js/script.js:202-215 | with 5 or more primary entries the fallback does not run and the first 5 midday entries, of distinct dates, are shown |
| Forecast.DailySummaryFiveMiddayDates | static/js/script.js:190-215 | a list with midday samples on 5 or more dates shows exactly 5 midday entries of distinct dates |
| Forecast.DailySummaryFullOnFiveDates | static/js/script.js:201-215 | a list spanning 5 or more dates always shows exactly 5 entries, midday samples or not |
| Forecast.DailySummaryNoMidday | static/js/script.js:201-215 | without midday samples the first entry of each of the first 5 dates is shown, in input order, dates distinct |
| Forecast.FallbackRepeatsDate | static/js/script.js:203-211 | a midday sample followed by a later sample of the same date is shown twice |
| Forecast.DedupedSummary | static/js/script.js:201-215 | the corrected aggregation: at most 5 entries, each from the list |
| Forecast.DedupedSummaryDistinct | static/js/script.js:201-213 | the corrected fallback, seeded with the primary pass's dates, shows at most 5 entries of distinct dates and agrees with the code when the primary pass found none or 5 or more |
| Display.Flip | static/js/script.js:68 | the toggle always changes the unit |
| Display.FlipTwice | static/js/script.js:68 | toggling twice restores the unit |
| Display.ConvertTemp | static/js/script.js:233-238 | metric leaves the temperature unchanged; the imperial result converts back by (r - 32) * 5 / 9 |
| Display.ConvertTempLandmarks | static/js/script.js:233-238 | 0 becomes 32 and 100 becomes 212 in imperial, and -40 stays -40 |
| Display.ConvertTempMonotonic | static/js/script.js:233-238 | conversion keeps the order of temperatures |
| Display.ThemeOf | static/js/script.js:240-267 | night exactly when the icon code ends in `n`; sunny only for a condition containing "clear", rainy only for one containing "rain", "drizzle" or "thunder", snow only for one containing "snow" |
| Display.FirstMatch | static/js/script.js:256-266 | the theme of the first matching rule, or the fallback when none matches |
| Display.ThemeOfFollowsRules | static/js/script.js:240-267 | the theme is night when the icon code ends in the night marker, else the first match of the lower-cased condition in the table clear, cloud, rain/drizzle/thunder, snow, else cloudy |
| Display.ThemeNightIff | static/js/script.js:249-254 | the theme is night exactly when the icon code ends in `n`, whatever the condition |
| Display.ThemeIgnoresCase | static/js/script.js:246 | conditions that differ only in letter case get the same theme |
| Display.ThemeClearExamples | static/js/script.js:249-257 | ("Clear", "01d") is sunny and ("Clear", "01n") is night |
| Display.ThemeMistExample | static/js/script.js:256-266 | ("Mist", "50d") matches no rule and is cloudy |
| Display.ThemeThunderstormExample | static/js/script.js:256-261 | ("Thunderstorm", "11d") is rainy |
| Favorites.IndexOf | static/js/script.js:271 | `indexOf`: -1 exactly when the city is absent, else the first position holding it |
| Favorites.RemoveFirst | static/js/script.js:274-275 | one entry shorter, and every other city is present exactly when it was before |
| Favorites.Toggled | static/js/script.js:270-276 | a present city loses one copy and nothing else changes in count; an absent city is appended after the unchanged list |
| Favorites.Load | static/js/script.js:29 | nothing stored gives an empty list; a stored list is used as it is |
| Favorites.RemoveFirstIsSplice | static/js/script.js:271-275 | removing the first occurrence equals `splice(indexOf(city), 1)` |
| Favorites.ToggledPresent | static/js/script.js:274-275 | a present city loses its first occurrence, the others keep their order, and only one copy of the city goes |
| Favorites.ToggledAbsent | static/js/script.js:272-273 | an absent city is appended at the end |
| Favorites.ToggledKeepsNoDuplicates | static/js/script.js:270-277 | a duplicate-free list stays duplicate-free, and the city is a favorite afterwards exactly when it was not before |
| Favorites.ToggleTwiceAbsent | static/js/script.js:270-277 | toggling an absent city twice restores the list |
| Favorites.ToggleTwicePresent | static/js/script.js:270-277 | toggling a present city of a duplicate-free list twice moves it to the end (the list is unchanged only when it was already last) |
| Dashboard.DashboardState.constructor | static/js/script.js:27-29 | start-up state: metric, Delhi, favorites loaded from storage; the favorites are what a reload would read back |
| Dashboard.DashboardState.ToggleUnit | static/js/script.js:67-68 | the unit flips, nothing else changes, and the favorites still match storage |
| Dashboard.DashboardState.ToggleFavorite | static/js/script.js:270-277 | the favorites become the toggled list, storage then holds exactly that list (so a reload shows it), and duplicate-freedom is kept |
| Dashboard.DashboardState.IsFavorite | static/js/script.js:283 | `includes` is membership, and it agrees with `indexOf` finding the city |
| Cache.WeatherCache.constructor | app.py:17-18 | the cache starts empty |
| Cache.WeatherCache.Get | app.py:20-28 | a valid entry (younger than 300 s) yields its data and leaves the cache unchanged; an expired entry yields nothing and only that key is deleted; a missing key yields nothing and changes nothing |
| Cache.WeatherCache.Set | app.py:30-32 | the key maps to (now, data), overwriting; all other keys are unchanged; the new entry is valid at the same time |
| TextOps.Lower | app.py:68 | `lower()` on ASCII: same length, no capital left, each capital replaced by the letter 32 code points above, every other character unchanged (also `toLowerCase` at script.js:246) |
| Cache.WeatherKey | app.py:68 | the `weather_` prefix followed by \|city\| characters, none of them a capital; which cities share a key is stated by WeatherKeySharedIff |
| Cache.ForecastKey | app.py:109 | the `forecast_` prefix followed by \|city\| characters, none of them a capital; which cities share a key is stated by ForecastKeySharedIff |
| Cache.KeysOfLoweredCity | app.py:68 | a city already lower-cased has the same weather and forecast keys as the city itself |
| Cache.WeatherKeySharedIff | app.py:68 | two cities share a current-weather entry exactly when they agree ignoring letter case |
| Cache.ForecastKeySharedIff | app.py:109 | two cities share a forecast entry exactly when they agree ignoring letter case |
| Cache.KeyKindsDistinct | app.py:109 | a forecast key never equals a current-weather key (line 68) |

## Left out

- The DOM is not modelled. This covers element lookup, `innerHTML`, `classList`, `createElement`, and the rendering of the forecast cards and the favorites list. It also covers the icon of the favorite button.
- Network and timing are not modelled. This covers `fetch`, the async `fetchWeather`/`fetchWeatherByCoords`/`fetchForecast` and geolocation. It also covers the loader and the timed error toast. The updates that these make to the current city are not modelled either.
- Locale- and float-based formatting is not modelled. This covers the wind-speed and visibility formatting (`toFixed`), `Math.round` and `toLocaleDateString`.
- `JSON.stringify` and `JSON.parse` are not modelled. Storage holds the list itself, as an `Option<seq<string>>`. The following cases are not captured:
  - corrupt stored text, which makes `JSON.parse` throw;
  - stored JSON values that are falsy, which fall back to an empty list.
- The Flask routes are not modelled. This covers `requests.get`, `load_dotenv`, `jsonify` and the projection of the gateway payload.
- The coordinates cache key is not modelled, because it rounds floats. Its `weather_coords_` prefix also lies in the key space of `WeatherKey`.
- The routes use `if cached:`, so a cached value that Python treats as false counts as a miss. This is not modelled.
- TextOps.Lower lowers only the ASCII letters A-Z. JavaScript's `toLowerCase` and Python's `lower` also fold non-ASCII letters.
- Display.ConvertTemp works on exact reals, not IEEE doubles, so it does not capture rounding error.
- Cache.WeatherCache.Get: requests that interleave on the shared module-level dictionary are not modelled. Flask's development server handles requests on separate threads (app.py:193). Another request can delete a key between the membership test (app.py:22) and the read (app.py:23) or the `del` (app.py:27), which raises `KeyError`. A store that lands between app.py:23 and app.py:27 can also have its fresh entry deleted. Each lookup and each store is modelled as one atomic step.
- Cache.WeatherCache.Get and Set take the clock reading `now` as a real number in place of `time.time()`.
- Display.Flip works on a two-value enumeration. In the source, `currentUnit` is a string that only ever holds `'metric'` or `'imperial'`.

## Findings

| source | as written | input that shows it | evidently intended | confidence | as-written member | corrected member |
|---|---|---|---|---|---|---|
| static/js/script.js:203-211 | the fallback pass builds a fresh set of dates, so it appends again the dates the primary pass already picked, although the comment at line 211 says the set dedupes them | `[{dt_txt: "2024-01-01 12:00:00"}, {dt_txt: "2024-01-01 15:00:00"}]` shows the noon entry twice | the fallback skips the dates already in `seenDates`, so every shown entry has its own date | medium, not executed | Forecast.FallbackRepeatsDate | Forecast.DedupedSummaryDistinct |

`Forecast.SelectDaily` keeps the behaviour as written, because it models the page's
code. `Forecast.DedupedSummary` is the corrected aggregation.
