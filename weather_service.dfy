/** WeatherService: delegates to a weather API client and looks a city up in
    today's snapshots. */
module WeatherService {
  import opened Wrappers
  import opened Text
  import opened Models
  import opened Sequences
  import MeteoApiClient

  /** What an `IWeatherApiClient` returns: today's snapshots and, per city,
      the forecast (or the failure each call raises). */
  datatype WeatherApiClient = WeatherApiClient(
    todayWeather: Result<seq<WeatherSnapshot>, FeedError>,
    fiveDayForecast: string -> Result<seq<ForecastDay>, FeedError>)

  /** The production client over the two fetched documents. */
  function MeteoClient(
    todayPayload: Result<MeteoApiClient.Json, FeedError>,
    forecastPayload: Result<MeteoApiClient.XElement, FeedError>,
    parsers: MeteoApiClient.NumberParsers): WeatherApiClient
  {
    WeatherApiClient(
      MeteoApiClient.DecodeToday(todayPayload, parsers),
      city => MeteoApiClient.Get5DayForecast(forecastPayload, city, parsers))
  }

  /** Over the production client, the service serves the decoded feeds, and a
      city found by the lookup is the snapshot decoded from one of the
      features of today's document. */
  lemma MeteoClientServesFeeds(
    todayPayload: Result<MeteoApiClient.Json, FeedError>,
    forecastPayload: Result<MeteoApiClient.XElement, FeedError>,
    parsers: MeteoApiClient.NumberParsers,
    cityName: string)
    ensures GetTodayWeather(MeteoClient(todayPayload, forecastPayload, parsers))
      == MeteoApiClient.DecodeToday(todayPayload, parsers)
    ensures forall city ::
      Get5DayForecast(MeteoClient(todayPayload, forecastPayload, parsers), city)
      == MeteoApiClient.Get5DayForecast(forecastPayload, city, parsers)
    ensures var r := GetWeatherByCity(MeteoClient(todayPayload, forecastPayload, parsers), cityName);
      r.Success? && r.value.Some? ==>
        && todayPayload.Success?
        && todayPayload.value.JObject?
        && "features" in todayPayload.value.members
        && todayPayload.value.members["features"].JArray?
        && SameCity(r.value.value, cityName)
        && exists f :: f in todayPayload.value.members["features"].items
             && MeteoApiClient.DecodeFeature(f, parsers) == Success(r.value.value)
  {
    var client := MeteoClient(todayPayload, forecastPayload, parsers);
    var r := GetWeatherByCity(client, cityName);
    if r.Success? && r.value.Some? {
      var items := todayPayload.value.members["features"].items;
      MeteoApiClient.DecodeFeaturesInOrder(items, parsers);
      var all := client.todayWeather.value;
      var i :| 0 <= i < |all| && all[i] == r.value.value;
      assert items[i] in items;
    }
  }

  /** GetTodayWeather: the client's list, unchanged. */
  function GetTodayWeather(client: WeatherApiClient): (r: Result<seq<WeatherSnapshot>, FeedError>)
    ensures r == client.todayWeather
  {
    client.todayWeather
  }

  /** `w.City.ToLower() == cityName.ToLower()`. */
  predicate SameCity(w: WeatherSnapshot, cityName: string) {
    Lower(w.City) == Lower(cityName)
  }

  /** GetWeatherByCity: the first snapshot of the city, ignoring case, or
      `None` (null) when there is none. */
  function GetWeatherByCity(client: WeatherApiClient, cityName: string): (r: Result<Option<WeatherSnapshot>, FeedError>)
    ensures client.todayWeather.Failure? ==> r == Failure(client.todayWeather.error)
    ensures client.todayWeather.Success? ==>
      var all := client.todayWeather.value;
      && r.Success?
      && (r.value.None? <==> forall i :: 0 <= i < |all| ==> !SameCity(all[i], cityName))
      && (r.value.Some? ==>
            && r.value.value in all
            && SameCity(r.value.value, cityName)
            && exists i :: IsFirstWhere(all, w => SameCity(w, cityName), i) && r.value.value == all[i])
  {
    var all :- client.todayWeather;
    Success(FirstWhere(all, w => SameCity(w, cityName)))
  }

  /** Looking a city up is insensitive to the case of the name asked for. */
  lemma {:induction false} LookupIgnoresCase(client: WeatherApiClient, a: string, b: string)
    requires Lower(a) == Lower(b)
    ensures GetWeatherByCity(client, a) == GetWeatherByCity(client, b)
  {
    if client.todayWeather.Success? {
      FirstWhereCongruent(client.todayWeather.value, w => SameCity(w, a), w => SameCity(w, b));
    }
  }

  /** Get5DayForecast: the client's forecast, unchanged; the city is not
      validated here. */
  function Get5DayForecast(client: WeatherApiClient, city: string): (r: Result<seq<ForecastDay>, FeedError>)
    ensures r == client.fiveDayForecast(city)
  {
    client.fiveDayForecast(city)
  }
}
