/** The canonical records produced by the feed decoders and consumed by the
    services. */
module Models {

  /** One day of a city's forecast (`ForecastDay`). Temperatures in Celsius;
      `TemperatureMin <= TemperatureMax` is expected but never enforced. */
  datatype ForecastDay = ForecastDay(
    Date: string,
    TemperatureMin: real,
    TemperatureMax: real,
    WeatherDescription: string)

  /** Current conditions for one city (`WeatherSnapshot`). */
  datatype WeatherSnapshot = WeatherSnapshot(
    City: string,
    Temperature: real,
    Humidity: int,
    WeatherDescription: string)

  /** Why a feed could not be turned into records. */
  datatype FeedError =
    | Unavailable              // the document could not be fetched or parsed
    | MissingProperty(name: string)  // `JsonElement.GetProperty` on an absent key
    | WrongKind(name: string)        // a JSON accessor applied to a value of another kind
    | NotInt32(name: string)         // `JsonElement.GetInt32` on a non-Int32 number
}
