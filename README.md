# Forecast pipeline of the weather dashboard, in Dafny

This project models the two data transformations behind the dashboard's
forecast view and proves what they compute.

* **The extended-forecast generator** (`generateExtendedForecast`). The weather
  service returns a list of 3-hour forecast entries, and the generator pads it
  out to `totalDays * 8` entries. It copies the list, takes the first
  `min(length, 56)` entries as a *pattern*, and appends entries one at a time.
  The entry at index `i` is a copy of `pattern[i % p]`, moved
  `floor(i / p) * 7` days later, with the text form of the new timestamp. It is
  modelled in `weather_api.dfy` as a method with the same `while` loop.

  The JavaScript code throws in two places:
  * Reading `pattern[NaN].dt` when the list is empty and entries are still
    wanted.
  * `toISOString` when the shifted timestamp is outside the ECMAScript
    time-value range.

  Both are modelled as the result `Threw(...)`, with an exact
  if-and-only-if condition for each.
* **The daily aggregator** (`processForecastData`). The view groups the 3-hour
  entries by calendar date. Buckets are kept in the order each date first
  occurs. Each bucket becomes a card with:
  * the mean temperature, rounded half up (`Math.round`);
  * the most frequent icon and the most frequent description;
  * a tie between equally frequent values goes to the value whose first
    occurrence is *latest*, because the argmax reduce keeps its accumulator
    only when it is strictly heavier.

  The cards are cut to 7 in week view and 30 otherwise.
  * `forecast.dfy` holds the bucketing pass, the per-bucket summary and the
    slice.
  * `tally.dfy` holds the count-table pass and the argmax reduce, which the
    icon and description share.
  * `forecast.dfy` also holds the week/month switch (`toggleViewMode`).

`forecast_data.dfy` holds the records:
* `Sample` is one forecast entry, reduced to the fields the pipeline touches:
  `dt`, `dt_txt`, `main.temp`, `weather[0].icon` and
  `weather[0].description`.
* `DailySummary` is one card.

Two host-dependent library calls become function parameters:
* `isoText` renders a timestamp as `toISOString().replace('T', ' ').substring(0, 19)` does.
* `dateKey` computes a calendar date as `new Date(dt * 1000).toLocaleDateString()` does.

Both imperative passes are proved against specification functions:
* The generator's result satisfies `IsExtension`, which gives its length,
  its unchanged prefix and every appended entry.
* `GroupByDate` returns `Distinct(DateKeys(...))` and `BucketOf` for each
  date.
* `CountOccurrences` returns `Distinct` and `CountTable`.
* `ProcessForecastData` returns `DailyForecast`.

Lemmas then state what those functions mean:
* buckets partition the input;
* cards follow first-seen date order;
* each card summarizes exactly its date's entries;
* the winner of the reduce is the latest mode;
* generated timestamps ascend strictly, when the source has at most 56
  entries, ascends, and spans less than a week (`ExtensionAscends`); an
  unsorted source, or a pattern spanning a week or more, is not covered.

The week shift does not depend on the pattern length (`NextPassIsOneWeekLater`).
So a source spanning less than a week, such as the 40 entries of a 5-day
forecast, gives generated weeks with a gap between the replayed days.

## Model

| member | source | states |
|---|---|---|
| WeatherApi.PatternLength | services/weatherApi.js:157 | the pattern length is `min(n, 56)`: at most both, and equal to one of them |
| WeatherApi.Pattern | services/weatherApi.js:157-158 | the pattern is exactly the first `min(len, 56)` source entries |
| WeatherApi.ShiftedDt | services/weatherApi.js:166-171 | the timestamp `pattern[i % p].dt + floor(i / p) * 7 * 86400` of index `i`; its per-pass and ordering properties are `ShiftedDtInFirstPass`, `NextPassIsOneWeekLater` and `ShiftedDtAscending` |
| WeatherApi.IsTimeValue | services/weatherApi.js:171-176 | `new Date(seconds * 1000)` is valid, i.e. the milliseconds lie within ±8.64e15; outside it `toISOString` throws, which `GenerateExtendedForecast` reports as `InvalidTimeValue` |
| WeatherApi.Synthesized | services/weatherApi.js:166-177 | the entry pushed for index `i`: `pattern[i % p]` with the shifted `dt` and its text; `AppendedEntry` states its fields one by one |
| WeatherApi.GenerateExtendedForecast | services/weatherApi.js:152-183 | throws `UndefinedEntry` iff the source is empty and entries are still wanted; throws `InvalidTimeValue` iff some shifted timestamp is not a valid time value; otherwise the result is an extension: length `max(len, totalDays*8)`, source unchanged in front, entry `i` synthesized from `pattern[i % p]` |
| WeatherApi.AppendedEntry | services/weatherApi.js:166-177 | appended entry `i` copies source entry `i % p`, keeping temperature, icon and description; its `dt` is that entry's plus `floor(i/p)*7*86400`, and its `dt_txt` is the text of the new `dt` |
| WeatherApi.ShiftedDtInFirstPass | services/weatherApi.js:166-171 | in the first pass over the pattern the timestamp is the pattern entry's own |
| WeatherApi.NextPassIsOneWeekLater | services/weatherApi.js:166-175 | index `i + p` copies the same pattern entry as `i`, exactly seven days later, whatever `p` is |
| WeatherApi.ShiftedDtStep | services/weatherApi.js:170-171 | for an ascending pattern spanning less than a week, consecutive generated timestamps strictly increase |
| WeatherApi.ShiftedDtAscending | services/weatherApi.js:170-171 | for such a pattern the generated timestamps are strictly increasing in the index |
| WeatherApi.ExtensionAscends | services/weatherApi.js:152-183 | a source of at most 56 ascending entries spanning less than a week extends to a strictly ascending list, with no two entries sharing a timestamp |
| Tally.DistinctValues | src/components/Forecast.jsx:53-59 | the key list holds exactly the values that occur, each once |
| Tally.DistinctSnoc | src/components/Forecast.jsx:53-59 | one more entry adds its value to the key list iff the value is new |
| Tally.DistinctInFirstSeenOrder | src/components/Forecast.jsx:53-59 | keys appear in the order in which their values first occur |
| Tally.LeadingDistinctValues | src/components/Forecast.jsx:68-95 | any prefix of the key list keeps no-repeats and first-seen order |
| Tally.CountsSumToLength | src/components/Forecast.jsx:73-75 | the counts of the distinct values add up to the number of values |
| Tally.CountTableEntries | src/components/Forecast.jsx:72-75 | the count table has a key exactly for each occurring value, holding its positive number of occurrences |
| Tally.CountTableSnoc | src/components/Forecast.jsx:73-75 | one more value raises its own count by one and leaves the others unchanged |
| Tally.CountStep | src/components/Forecast.jsx:73-75 | bumping `counts[v]` from 0 when absent turns the table and key list of a prefix into those of the longer prefix |
| Tally.CountOccurrences | src/components/Forecast.jsx:72-75 | the count pass yields the table's key list in first-seen order and the exact count table |
| Tally.ReduceHeavier | src/components/Forecast.jsx:76-78 | the reduce returns one of the keys |
| Tally.MostFrequent | src/components/Forecast.jsx:76-78 | the reduce over the count table's keys; `MostFrequentIsLatestMode` states that it is the most frequent value, ties going to the one first seen latest |
| Tally.ReduceHeavierIsLastMaximum | src/components/Forecast.jsx:76-78 | the reduce returns a key of maximal count after which every key is strictly lighter, i.e. the last maximal key |
| Tally.LatestModeIsUnique | src/components/Forecast.jsx:76-78 | "most frequent, ties to the value first seen latest" picks exactly one value |
| Tally.MostFrequentIsLatestMode | src/components/Forecast.jsx:72-78 | the reduce over the count table returns a value present in the input with maximal count, and among equal counts the one first seen latest |
| Tally.TieGoesToLaterValue | src/components/Forecast.jsx:76-78 | `["01d", "02d"]` gives `"02d"` |
| Tally.MajorityWins | src/components/Forecast.jsx:72-78 | `["01d", "01d", "02d"]` gives `"01d"` |
| Forecast.ToggleViewMode | src/components/Forecast.jsx:98-100 | the next mode is always "week" or "month", differs from a valid current mode, and is "week" for anything else |
| Forecast.ToggleTwiceRestoresMode | src/components/Forecast.jsx:98-100 | toggling a valid mode twice gives it back |
| Forecast.Horizon | src/components/Forecast.jsx:95 | the slice keeps 7 cards exactly in week mode, 30 otherwise |
| Forecast.RoundHalfUp | src/components/Forecast.jsx:91 | `Math.round(x)` is the integer within half a unit of `x`, halves going up |
| Forecast.SumWithinBounds | src/components/Forecast.jsx:69 | the temperature sum lies between `n * lo` and `n * hi` |
| Forecast.Sum | src/components/Forecast.jsx:69 | `temps.reduce((sum, temp) => sum + temp, 0)` as a left fold from 0; bounded by `SumWithinBounds` |
| Forecast.Mean | src/components/Forecast.jsx:69 | the sum divided by the count; `MeanWithinBounds` places it between the readings' bounds |
| Forecast.MeanWithinBounds | src/components/Forecast.jsx:69 | the mean temperature lies within any bounds of the readings |
| Forecast.ConstantTemperatureRoundsToItself | src/components/Forecast.jsx:69-91 | a day whose readings are all the integer `t` shows `t` |
| Forecast.OnDate | src/components/Forecast.jsx:50-64 | a date's entries come from the input, carry that date, and number as many as the date's occurrences |
| Forecast.OnDateSelectsMatching | src/components/Forecast.jsx:50-64 | a date's entries are exactly the input entries with that date key |
| Forecast.BucketSnoc | src/components/Forecast.jsx:62-64 | one more entry pushes its readings onto its own date's bucket and no other |
| Forecast.Push | src/components/Forecast.jsx:62-64 | the three `push` calls: the entry's temperature, icon and description appended to its bucket; `BucketSnoc` and `GroupStep` show the pass builds `BucketOf` with it |
| Forecast.GroupStep | src/components/Forecast.jsx:53-64 | one `forEach` step (create the bucket if missing, push three readings) keeps the key list and buckets equal to those of the longer prefix |
| Forecast.GroupByDate | src/components/Forecast.jsx:48-65 | the bucketing pass yields the distinct dates in first-seen order, a bucket for exactly those dates, and for each the readings of that date's entries in input order |
| Forecast.BucketOfOccurringDate | src/components/Forecast.jsx:53-64 | every date that occurs has a non-empty bucket, so the mean and the reduces are defined |
| Forecast.BucketSizesAreCounts | src/components/Forecast.jsx:62-64 | bucket sizes are the dates' occurrence counts |
| Forecast.BucketsPartitionEntries | src/components/Forecast.jsx:50-64 | bucket sizes add up to the number of input entries |
| Forecast.NoEntriesNoDays | src/components/Forecast.jsx:47-96 | an empty list gives no cards and no error |
| Forecast.DaysAreLeadingDates | src/components/Forecast.jsx:68-95 | there are `min(#dates, horizon)` cards, whose dates are the first distinct dates in order |
| Forecast.DaysAreFirstSeenDates | src/components/Forecast.jsx:51-68 | no date has two cards; cards follow the order of the dates' first occurrences; below the horizon every date has a card |
| Forecast.DaySummarizesItsEntries | src/components/Forecast.jsx:68-94 | each card's date has entries, its temperature is the rounded mean of their readings, and its icon and description are their latest modes |
| Forecast.CardsCutToHorizon | src/components/Forecast.jsx:68-95 | per-bucket cards in key order, sliced to the horizon, are the view's result |
| Forecast.SummarizeBucket | src/components/Forecast.jsx:68-94 | the `map` callback (sum, two count passes, two reduces, `Math.round`) computes the bucket's card |
| Forecast.Summarize | src/components/Forecast.jsx:68-94 | the card for a filled bucket: its date, `Math.round` of the mean, and the most frequent icon and description; `DaySummarizesItsEntries` states what each field is in terms of the date's entries |
| Forecast.DailyForecast | src/components/Forecast.jsx:47-96 | the specified result: one card per distinct date in first-seen order, cut to the horizon; characterized by `DaysAreLeadingDates`, `DaysAreFirstSeenDates`, `DaySummarizesItsEntries` and `NoEntriesNoDays` |
| Forecast.SummarizeAll | src/components/Forecast.jsx:68-94 | the `map` yields one card per bucket, in key order |
| Forecast.ProcessForecastData | src/components/Forecast.jsx:47-96 | `processForecastData` returns exactly the specified cards: one per distinct date in first-seen order, cut to the horizon |

## Left out

- The three `fetch*` functions of `services/weatherApi.js`: HTTP calls, the API key from the environment, and console logging.
- The one caller passes `totalDays = 30`. The generator is modelled for any `totalDays`.
- `toISOString` and `toLocaleDateString` are the parameters `isoText` and `dateKey`. Their locale, time-zone and formatting behaviour is not modelled.
- `new Date(ms).getTime() / 1000` is taken to round-trip integer seconds exactly. `dt` is an integer; a fractional `dt` from the service is not modelled.
- Temperatures are exact reals, so IEEE-754 rounding in the sum and the division is not modelled.
- `GenerateExtendedForecast`:
  - The model copies only the five fields of `Sample`.
  - The object spread copies every field of the entry; the other fields are not modelled.
- `ProcessForecastData`:
  - Entries lacking `main` or `weather[0]` make the JavaScript code throw; that is not modelled.
  - A date string that names an `Object.prototype` member (which `toLocaleDateString` never produces) is not modelled.
- Icon codes and descriptions are taken as non-numeric keys, so `Object.keys` lists them in insertion order.
- The date strings are taken the same way for `Object.values`.
- `toggleViewMode` is modelled as the updater passed to `setViewMode`. The React state, the effect hooks that fetch data, error swallowing and the JSX rendering are not modelled.
- `processForecastData` reads `viewMode` from its closure; here it is an explicit parameter.
- `src/components/Footer.jsx`: static markup with the current year; there is no logic in it to model.
