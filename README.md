# Romanian weather service — a Dafny model of its core

This project models the core of a small ASP.NET weather service. The service reads two feeds of the Romanian national meteorological administration: a JSON feed of the current weather per station, and an XML feed of five-day forecasts per city. It exposes statistics over a city's forecast. The model covers four parts:

- **WeatherAnalysisService** (`weather_analysis.dfy`). The eleven queries over a city's forecast:
  - three averages;
  - the hottest and the coldest day;
  - sunny and cloudy days;
  - the temperature trend;
  - the top N days by maximum and by minimum;
  - the days within a temperature range.

  Each query checks its arguments in the source's order. The city is always checked before the fetch. The trend threshold and the range bounds are checked before the fetch too. The top-N count `n` is checked only after the fetch and after the empty-forecast check. The forecast is a `ForecastSource`, a function from city name to the fetched days or a feed failure. A failure reaches the caller as `Upstream`, as the source's exception does. The three "no data" conventions are kept apart:
  - averages and extremes give `Success(None)`, the C# `null`;
  - the filters give an empty sequence;
  - top-N gives `NoForecast`, the `InvalidOperationException`.

  `GetTemperatureTrend` is a method whose loop updates the `rising` and `falling` flags, as the source's `for` loop does. It is proved against the function `TrendOf`.
- **MeteoApiClient** (`meteo_api_client.dfy`). The decoding that follows the HTTP download and the parse.
  - The "today" feed is a parsed JSON tree (`Json`). `GetTodayWeather` is a method whose loop appends one snapshot per feature. Its `DecodeOne` step overwrites `temp` and `hum` as the source's `TryParse` calls do.
  - Hard failures of the JSON library are `FeedError` outcomes, in the order the source meets them: a missing property, a wrong value kind, or an `Int32` that does not fit. No default is invented for them.
  - The forecast feed is a parsed XML tree (`XElement`). `Get5DayForecast` selects the first `localitate` element whose `nume` matches the city ignoring case, keeps at most five `prognoza` children, and gives each field its own default.
  - `double.TryParse` and `int.TryParse` are opaque partial functions, passed as `NumberParsers`.
- **WeatherService** (`weather_service.dfy`). The first-match lookup of a city in today's snapshots, and two pass-throughs to the client.
- **ExternalLinkService** (`external_link_service.dfy`). The link to a city's page on the meteorological site.

Supporting modules:

- `wrappers.dfy`: `Option` and `Result`.
- `text.dfy`: string operations, with case folding as an ASCII fold and `char.IsWhiteSpace`'s character list.
- `sequences.dfy`: LINQ `Where` as `Filter` and `FirstOrDefault` as `FirstWhere`.
- `stable_sort.dfy`: LINQ `OrderBy`/`OrderByDescending` as a stable sort. Positions are ordered by key, then by original index.
- `models.dfy`: `ForecastDay`, `WeatherSnapshot` and `FeedError`.

Temperatures are `real`. `WeatherSnapshot.cs` is not part of this model. The record's fields follow the object initializer in `MeteoApiClient.GetTodayWeather`.

The code and the tests disagree in one place, and the model follows the code. A test expects `WeatherService.Get5DayForecast("")` to throw. The service itself does no validation: it passes the city to the client unchanged (`WeatherService.cs:28-31`), and `WeatherService.Get5DayForecast` does the same.

## Model

| member | source | states |
|---|---|---|
| WeatherAnalysis.GetAverageTemperature | backend/RomanianWeather.API/Services/WeatherAnalysisService.cs:15-24 | A blank city is rejected before the fetch. A failed fetch propagates. No days gives `None`. Otherwise the result is the mean of the daily (min+max)/2, and it lies between the lowest and the highest daily average. |
| WeatherAnalysis.GetAverageMinTemperature | backend/RomanianWeather.API/Services/WeatherAnalysisService.cs:26-35 | The same error and no-data cases. Otherwise the result is the mean of the daily minima, between the lowest and the highest minimum. |
| WeatherAnalysis.GetAverageMaxTemperature | backend/RomanianWeather.API/Services/WeatherAnalysisService.cs:37-46 | The same error and no-data cases. Otherwise the result is the mean of the daily maxima, between the lowest and the highest maximum. |
| WeatherAnalysis.MeanWithinRange | backend/RomanianWeather.API/Services/WeatherAnalysisService.cs:23 | The mean of a non-empty sequence lies between its smallest and its largest value. |
| WeatherAnalysis.AverageIsMidpoint | backend/RomanianWeather.API/Services/WeatherAnalysisService.cs:15-46 | When the average temperature is defined, so are the average minimum and maximum, and the average temperature is their midpoint. |
| WeatherAnalysis.GetHottestDay | backend/RomanianWeather.API/Services/WeatherAnalysisService.cs:48-57 | The same error cases, and `None` for no days. Otherwise the result is an input day with the greatest maximum, and no earlier day has that maximum (the stable sort keeps the first). |
| WeatherAnalysis.GetColdestDay | backend/RomanianWeather.API/Services/WeatherAnalysisService.cs:59-68 | The same error cases, and `None` for no days. Otherwise the result is an input day with the least minimum, and no earlier day has that minimum. |
| WeatherAnalysis.GetSunnyDays | backend/RomanianWeather.API/Services/WeatherAnalysisService.cs:70-85 | The same error cases. Otherwise the result is the order-preserving filter of the days that mention a sunny keyword, ignoring case. A day is in the result iff it is an input day that mentions one. Each such day occurs as often as in the input; no other day occurs. |
| WeatherAnalysis.GetCloudyDays | backend/RomanianWeather.API/Services/WeatherAnalysisService.cs:87-102 | The same as for sunny days, with the cloudy keywords. |
| Text.Contains | backend/RomanianWeather.API/Services/WeatherAnalysisService.cs:83 | Substring search: true iff the pattern occurs at some position of the string. |
| WeatherAnalysis.GetTemperatureTrend | backend/RomanianWeather.API/Services/WeatherAnalysisService.cs:104-141 | Checks run in order: a blank city, then a negative threshold, both before the fetch; then a failed fetch. The loop over consecutive daily averages returns exactly `TrendOf`: "No data" for no days; "Rising" when every change exceeds the threshold (so also for one day); "Falling" when there are at least two days and every change is below minus the threshold; "Stable/Mixed" otherwise. |
| WeatherAnalysis.FallingExactly | backend/RomanianWeather.API/Services/WeatherAnalysisService.cs:124-140 | With a non-negative threshold and at least two days, the flags never both stay set. So "Falling" is reported iff every change is below minus the threshold, and "Rising" iff every change exceeds it. |
| WeatherAnalysis.GetTopNDaysByMaxTemperature | backend/RomanianWeather.API/Services/WeatherAnalysisService.cs:143-161 | Errors come in order: a blank city, a failed fetch, no days (`NoForecast`), then n < 1. Otherwise the result has min(n, days) elements and is a prefix of the stable descending order by maximum. Its elements come from the input in non-increasing maximum, and every day left out has a maximum no higher than any day kept. |
| WeatherAnalysis.GetTopNDaysByMinTemperature | backend/RomanianWeather.API/Services/WeatherAnalysisService.cs:163-181 | The same error order. The result is a prefix of length min(n, days) of the stable ascending order by minimum, in non-decreasing minimum, and no day left out has a lower minimum than a day kept. |
| WeatherAnalysis.TopOneIsHottestAndColdest | backend/RomanianWeather.API/Services/WeatherAnalysisService.cs:56-67 | The top one day by maximum is the hottest day, and the top one day by minimum is the coldest day. |
| WeatherAnalysis.GetDaysWithTemperatureRange | backend/RomanianWeather.API/Services/WeatherAnalysisService.cs:183-198 | A blank city, then minTemp > maxTemp, are rejected before the fetch. Otherwise the result is the order-preserving filter of the days with min ≥ minTemp and max ≤ maxTemp, with membership and multiplicity as for the keyword filters. No days gives no days. |
| WeatherAnalysis.DegenerateRange | backend/RomanianWeather.API/Services/WeatherAnalysisService.cs:195-197 | With minTemp = maxTemp = t, every day kept (from days whose min ≤ max) has min = max = t. |
| StableSort.OrderBy | backend/RomanianWeather.API/Services/WeatherAnalysisService.cs:158-160 | The sorted sequence has the input's length. Element k is the input element at position k of the stable order, and the keys are in the requested direction. |
| StableSort.StableOrderUnique | backend/RomanianWeather.API/Services/WeatherAnalysisService.cs:158-160 | Any two orders of all positions that are sorted by key, ties broken by position, are equal. So the stable sort is fully determined. |
| StableSort.FirstOfStableOrder | backend/RomanianWeather.API/Services/WeatherAnalysisService.cs:56 | The first position of the stable order has the best key, and every earlier position has a different key. |
| StableSort.TakeOrderBy | backend/RomanianWeather.API/Services/WeatherAnalysisService.cs:158-160 | The first m sorted elements are a prefix of the stable order. They come from the input and are in key order, and no element left out has a better key than one kept. |
| Sequences.Filter | backend/RomanianWeather.API/Services/WeatherAnalysisService.cs:195-197 | `Where`: the result is no longer than the input, and holds exactly the input elements that satisfy the predicate. |
| Sequences.FilterMultiplicity | backend/RomanianWeather.API/Services/WeatherAnalysisService.cs:82-84 | `Where` keeps every occurrence of a kept value and no occurrence of any other value. |
| Sequences.FilterAppend | backend/RomanianWeather.API/Services/WeatherAnalysisService.cs:82-84 | `Where` distributes over concatenation, so the kept elements keep their relative order. |
| Sequences.FirstWhere | backend/RomanianWeather.API/Services/WeatherService.cs:24-25 | `FirstOrDefault`: `None` iff no element matches. Otherwise the result is the element at the first matching position. |
| MeteoApiClient.GetProperty | backend/RomanianWeather.API/Providers/MeteoApiClient.cs:31 | Succeeds iff the element is an object with the property, and then gives the property's value. |
| MeteoApiClient.GetString | backend/RomanianWeather.API/Providers/MeteoApiClient.cs:53-55 | Succeeds iff the value is a string or null. A string gives its text and null gives a null reference. |
| MeteoApiClient.GetInt32 | backend/RomanianWeather.API/Providers/MeteoApiClient.cs:48 | Succeeds iff the number is an integer in the Int32 range, and then gives that integer. |
| MeteoApiClient.TolerantTemperature | backend/RomanianWeather.API/Providers/MeteoApiClient.cs:33-41 | A number gives its value. A string gives its parsed value when it parses. Any nonzero result is one of those two, so everything else gives 0. |
| MeteoApiClient.TolerantHumidity | backend/RomanianWeather.API/Providers/MeteoApiClient.cs:43-51 | Fails iff the field is a number that is not an Int32. A number that is an Int32 gives its own value. A string gives its parsed value when it parses. Any nonzero result is the number or the parsed string, so every other case gives 0. |
| MeteoApiClient.Description | backend/RomanianWeather.API/Providers/MeteoApiClient.cs:54-56 | Fails iff "nebulozitate" is present and neither a string nor null. Otherwise it gives the text, or "indisponibil" when the field is absent or null. |
| MeteoApiClient.DecodeFeature | backend/RomanianWeather.API/Providers/MeteoApiClient.cs:31-64 | Succeeds iff the feature has a decodable "properties" object. The snapshot's City is "nume" or "Unknown" for null. Temperature, humidity and description are the tolerant decodings of their fields. |
| MeteoApiClient.DecodeOne | backend/RomanianWeather.API/Providers/MeteoApiClient.cs:31-64 | The loop body, with `temp` and `hum` overwritten in place, computes exactly `DecodeFeature`. |
| MeteoApiClient.DecodeFeaturesInOrder | backend/RomanianWeather.API/Providers/MeteoApiClient.cs:27-67 | The list decodes iff every feature does. Then it has exactly one snapshot per feature, in feed order, with no deduplication. Otherwise the error is that of the first feature that fails. |
| MeteoApiClient.FirstFailureDecides | backend/RomanianWeather.API/Providers/MeteoApiClient.cs:29-31 | When feature i is the first that fails, the whole list fails with feature i's error. |
| MeteoApiClient.AllDecodedDecides | backend/RomanianWeather.API/Providers/MeteoApiClient.cs:27-67 | When every feature decodes, the list is exactly their snapshots in order. |
| MeteoApiClient.GetTodayWeather | backend/RomanianWeather.API/Providers/MeteoApiClient.cs:20-68 | The loop appending to `weatherList` returns exactly `DecodeToday`: the document failure, a missing or non-array "features", or the in-order decoding of every feature. |
| MeteoApiClient.FindCity | backend/RomanianWeather.API/Providers/MeteoApiClient.cs:81-85 | `None` iff no element of the document is a `localitate` whose `nume` equals the city ignoring case. Otherwise the result is the first such element in document order. |
| MeteoApiClient.DecodeDay | backend/RomanianWeather.API/Providers/MeteoApiClient.cs:94-100 | Date is the "data" attribute or "". A `temp_min`/`temp_max` element whose text parses gives the parsed value. Min and max are nonzero only when the element exists and its text parses to that value, so they are 0 otherwise. Description is the element's text or "". |
| MeteoApiClient.Get5DayForecast | backend/RomanianWeather.API/Providers/MeteoApiClient.cs:70-104 | A document failure propagates. Otherwise there are at most 5 days, and no matching city gives none. Otherwise the days are the decodings of the first min(5, count) `prognoza` children, in order. |
| MeteoApiClient.ForecastIgnoresCase | backend/RomanianWeather.API/Providers/MeteoApiClient.cs:83-84 | Two city names equal up to case select the same forecast. |
| WeatherService.GetTodayWeather | backend/RomanianWeather.API/Services/WeatherService.cs:17-20 | The client's list, or its failure, unchanged. |
| WeatherService.GetWeatherByCity | backend/RomanianWeather.API/Services/WeatherService.cs:22-26 | A client failure propagates. Otherwise the result is `None` iff no snapshot's lower-cased City equals the lower-cased name. A result is an element of the client's list, matches, and is the first match. |
| WeatherService.LookupIgnoresCase | backend/RomanianWeather.API/Services/WeatherService.cs:25 | Two names equal up to case find the same snapshot. |
| WeatherService.MeteoClientServesFeeds | backend/RomanianWeather.API/Services/WeatherService.cs:17-31 | Over the production client, the service returns the decoded today feed and the decoded forecast for every city. A snapshot found by the lookup matches the name and is the decoding of one of the features of today's document. |
| WeatherService.Get5DayForecast | backend/RomanianWeather.API/Services/WeatherService.cs:28-31 | The client's forecast for the city, unchanged; the city is not validated. |
| ExternalLinkService.GetCityWeatherLink | backend/RomanianWeather.API/Services/ExternalLinkService.cs:7-12 | The link starts with "https://www.meteoromania.ro/" and is as long as the prefix plus the name. Each position after the prefix holds '-' for a space, else the lower-cased character. No space follows the prefix. An empty name gives exactly the prefix. |
| ExternalLinkService.LinkIgnoresCase | backend/RomanianWeather.API/Services/ExternalLinkService.cs:10 | Names equal up to case give the same link. |

## Left out

- Fetching and parsing: the HTTP requests, the blocking `.Result`, UTF-8 decoding, `JsonDocument.Parse` and `XDocument.Parse`. Each operation receives the parsed tree, or the failure fetching or parsing produced.
- Each client call re-downloads its feed. The model's client gives one fixed result per feed, so repeated calls see the same document.
- `XElement.Value`, the concatenated text of an element, is a field supplied by the parser rather than computed from child text nodes.
- JSON objects are maps, so a document with a duplicated property name is not represented.
- MeteoApiClient.GetInt32: JSON numbers are reals, so a token such as `65.0` counts as an Int32. `JsonElement.GetInt32` reads the raw token and rejects it.
- IEEE double semantics are not modelled: rounding in `Average` and in the division by 2.0, NaN and infinities (including "NaN" accepted by `double.TryParse`) are replaced by exact `real` arithmetic.
- Culture-dependent parsing is an opaque function.
- Culture-specific case mapping: `ToLower` and `StringComparison.OrdinalIgnoreCase` are an ASCII case fold. Non-ASCII letters are compared as they are.
- Null references cannot be expressed with Dafny strings and values. So the model leaves out:
  - a null city, which the source rejects like a blank one;
  - a null `City`, `WeatherDescription` or `cityName` (a `NullReferenceException` in the source);
  - the `forecast == null` checks, since the data source returns a sequence or a failure.
- LINQ deferred execution: the top-N and range queries return lazy enumerables in the source. The model returns the materialized sequence and does not count how often the source is enumerated.
- The top-N count `n` is an unbounded integer. The source's `int` only narrows which values can be passed.
- ASP.NET plumbing is not part of this model: the controller and its status codes, program start-up, the unused `MeteoApiResponse` DTO, the interfaces (signatures only), and the test stubs.
- `WeatherSnapshot.cs` is not part of this model.
