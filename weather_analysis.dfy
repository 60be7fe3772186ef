/** WeatherAnalysisService: statistics over one city's forecast. The forecast
    is obtained from a data source (WeatherService.Get5DayForecast), modelled
    as a function from city name to the fetched days or a feed failure, which
    propagates to the caller as the source's exception does. */
module WeatherAnalysis {
  import opened Wrappers
  import opened Text
  import opened Models
  import opened Sequences
  import opened StableSort

  type ForecastSource = string -> Result<seq<ForecastDay>, FeedError>

  /** The exceptions the service throws. */
  datatype AnalysisError =
    | InvalidCity              // ArgumentException: city null, empty or white space
    | NegativeThreshold        // ArgumentOutOfRangeException on threshold
    | NoForecast(city: string) // InvalidOperationException: no forecast for the city
    | CountOutOfRange          // ArgumentOutOfRangeException on n
    | InvertedRange            // ArgumentException: minTemp greater than maxTemp
    | Upstream(cause: FeedError)

  // ---------------------------------------------------------------------
  // Averages

  function Sum(xs: seq<real>): real {
    if xs == [] then 0.0 else xs[0] + Sum(xs[1..])
  }

  /** LINQ `Average` over a non-empty sequence. */
  function Mean(xs: seq<real>): real
    requires |xs| > 0
  {
    Sum(xs) / |xs| as real
  }

  function Lowest(xs: seq<real>): (lo: real)
    requires |xs| > 0
    ensures lo in xs
    ensures forall i :: 0 <= i < |xs| ==> lo <= xs[i]
  {
    if |xs| == 1 then xs[0]
    else var rest := Lowest(xs[1..]); if xs[0] <= rest then xs[0] else rest
  }

  function Highest(xs: seq<real>): (hi: real)
    requires |xs| > 0
    ensures hi in xs
    ensures forall i :: 0 <= i < |xs| ==> xs[i] <= hi
  {
    if |xs| == 1 then xs[0]
    else var rest := Highest(xs[1..]); if xs[0] >= rest then xs[0] else rest
  }

  lemma {:induction false} SumBounds(xs: seq<real>, lo: real, hi: real)
    requires forall i :: 0 <= i < |xs| ==> lo <= xs[i] <= hi
    ensures lo * (|xs| as real) <= Sum(xs) <= hi * (|xs| as real)
  {
    if xs != [] {
      SumBounds(xs[1..], lo, hi);
      assert lo * |xs| as real == lo + lo * |xs[1..]| as real;
      assert hi * |xs| as real == hi + hi * |xs[1..]| as real;
    }
  }

  lemma DivideBounds(lo: real, total: real, hi: real, n: real)
    requires n > 0.0 && lo * n <= total <= hi * n
    ensures lo <= total / n <= hi
  {
  }

  lemma MeanBounds(xs: seq<real>, lo: real, hi: real)
    requires |xs| > 0
    requires forall i :: 0 <= i < |xs| ==> lo <= xs[i] <= hi
    ensures lo <= Mean(xs) <= hi
  {
    SumBounds(xs, lo, hi);
    DivideBounds(lo, Sum(xs), hi, |xs| as real);
  }

  /** The mean lies between the smallest and the largest value. */
  lemma MeanWithinRange(xs: seq<real>)
    requires |xs| > 0
    ensures Lowest(xs) <= Mean(xs) <= Highest(xs)
  {
    MeanBounds(xs, Lowest(xs), Highest(xs));
  }

  function DailyAverages(days: seq<ForecastDay>): (avgs: seq<real>)
    ensures |avgs| == |days|
  {
    seq(|days|, i requires 0 <= i < |days| => (days[i].TemperatureMin + days[i].TemperatureMax) / 2.0)
  }

  function Minima(days: seq<ForecastDay>): (mins: seq<real>)
    ensures |mins| == |days|
  {
    seq(|days|, i requires 0 <= i < |days| => days[i].TemperatureMin)
  }

  function Maxima(days: seq<ForecastDay>): (maxs: seq<real>)
    ensures |maxs| == |days|
  {
    seq(|days|, i requires 0 <= i < |days| => days[i].TemperatureMax)
  }

  /** The common shape of the average queries: validate, fetch, then either
      the no-data sentinel or the mean of the chosen per-day values. */
  function AverageOf(city: string, source: ForecastSource, select: seq<ForecastDay> -> seq<real>): (r: Result<Option<real>, AnalysisError>)
    requires forall days :: |select(days)| == |days|
    ensures IsBlank(city) ==> r == Failure(InvalidCity)
    ensures !IsBlank(city) && source(city).Failure? ==> r == Failure(Upstream(source(city).error))
    ensures !IsBlank(city) && source(city) == Success([]) ==> r == Success(None)
    ensures !IsBlank(city) && source(city).Success? && source(city).value != [] ==>
      var xs := select(source(city).value);
      && r == Success(Some(Mean(xs)))
      && Lowest(xs) <= r.value.value <= Highest(xs)
  {
    if IsBlank(city) then Failure(InvalidCity)
    else match source(city)
      case Failure(e) => Failure(Upstream(e))
      case Success(days) =>
        if days == [] then Success(None)
        else
          var xs := select(days);
          MeanWithinRange(xs);
          Success(Some(Mean(xs)))
  }

  /** GetAverageTemperature: mean of the daily (min + max) / 2. */
  function GetAverageTemperature(city: string, source: ForecastSource): (r: Result<Option<real>, AnalysisError>)
    ensures IsBlank(city) ==> r == Failure(InvalidCity)
    ensures !IsBlank(city) && source(city).Failure? ==> r == Failure(Upstream(source(city).error))
    ensures !IsBlank(city) && source(city) == Success([]) ==> r == Success(None)
    ensures !IsBlank(city) && source(city).Success? && source(city).value != [] ==>
      var xs := DailyAverages(source(city).value);
      && r == Success(Some(Mean(xs)))
      && Lowest(xs) <= r.value.value <= Highest(xs)
  {
    AverageOf(city, source, DailyAverages)
  }

  /** GetAverageMinTemperature: mean of the daily minima. */
  function GetAverageMinTemperature(city: string, source: ForecastSource): (r: Result<Option<real>, AnalysisError>)
    ensures IsBlank(city) ==> r == Failure(InvalidCity)
    ensures !IsBlank(city) && source(city).Failure? ==> r == Failure(Upstream(source(city).error))
    ensures !IsBlank(city) && source(city) == Success([]) ==> r == Success(None)
    ensures !IsBlank(city) && source(city).Success? && source(city).value != [] ==>
      var xs := Minima(source(city).value);
      && r == Success(Some(Mean(xs)))
      && Lowest(xs) <= r.value.value <= Highest(xs)
  {
    AverageOf(city, source, Minima)
  }

  /** GetAverageMaxTemperature: mean of the daily maxima. */
  function GetAverageMaxTemperature(city: string, source: ForecastSource): (r: Result<Option<real>, AnalysisError>)
    ensures IsBlank(city) ==> r == Failure(InvalidCity)
    ensures !IsBlank(city) && source(city).Failure? ==> r == Failure(Upstream(source(city).error))
    ensures !IsBlank(city) && source(city) == Success([]) ==> r == Success(None)
    ensures !IsBlank(city) && source(city).Success? && source(city).value != [] ==>
      var xs := Maxima(source(city).value);
      && r == Success(Some(Mean(xs)))
      && Lowest(xs) <= r.value.value <= Highest(xs)
  {
    AverageOf(city, source, Maxima)
  }

  lemma {:induction false} SumOfDailyAverages(days: seq<ForecastDay>)
    ensures Sum(DailyAverages(days)) == (Sum(Minima(days)) + Sum(Maxima(days))) / 2.0
  {
    if days != [] {
      SumOfDailyAverages(days[1..]);
      assert DailyAverages(days)[1..] == DailyAverages(days[1..]);
      assert Minima(days)[1..] == Minima(days[1..]);
      assert Maxima(days)[1..] == Maxima(days[1..]);
    }
  }

  lemma HalfOfSumOverN(a: real, b: real, n: real)
    requires n > 0.0
    ensures ((a + b) / 2.0) / n == (a / n + b / n) / 2.0
  {
  }

  lemma MeanOfDailyAverages(days: seq<ForecastDay>)
    requires |days| > 0
    ensures Mean(DailyAverages(days)) == (Mean(Minima(days)) + Mean(Maxima(days))) / 2.0
  {
    SumOfDailyAverages(days);
    HalfOfSumOverN(Sum(Minima(days)), Sum(Maxima(days)), |days| as real);
  }

  /** The average temperature is the midpoint of the average minimum and the
      average maximum, whenever all three succeed. */
  lemma AverageIsMidpoint(city: string, source: ForecastSource)
    requires GetAverageTemperature(city, source).Success?
    ensures GetAverageTemperature(city, source).value.Some? ==>
      && GetAverageMinTemperature(city, source).value.Some?
      && GetAverageMaxTemperature(city, source).value.Some?
      && GetAverageTemperature(city, source).value.value
         == (GetAverageMinTemperature(city, source).value.value + GetAverageMaxTemperature(city, source).value.value) / 2.0
  {
    if GetAverageTemperature(city, source).value.Some? {
      MeanOfDailyAverages(source(city).value);
    }
  }

  // ---------------------------------------------------------------------
  // Extremes

  function MaxKey(d: ForecastDay): real { d.TemperatureMax }
  function MinKey(d: ForecastDay): real { d.TemperatureMin }

  /** days[i] has the highest maximum, and is the first such day. */
  predicate IsHottest(days: seq<ForecastDay>, i: int) {
    && 0 <= i < |days|
    && forall j :: 0 <= j < |days| ==>
         && days[j].TemperatureMax <= days[i].TemperatureMax
         && (j < i ==> days[j].TemperatureMax < days[i].TemperatureMax)
  }

  /** days[i] has the lowest minimum, and is the first such day. */
  predicate IsColdest(days: seq<ForecastDay>, i: int) {
    && 0 <= i < |days|
    && forall j :: 0 <= j < |days| ==>
         && days[i].TemperatureMin <= days[j].TemperatureMin
         && (j < i ==> days[i].TemperatureMin < days[j].TemperatureMin)
  }

  /** GetHottestDay: `OrderByDescending(TemperatureMax).First()`. */
  function GetHottestDay(city: string, source: ForecastSource): (r: Result<Option<ForecastDay>, AnalysisError>)
    ensures IsBlank(city) ==> r == Failure(InvalidCity)
    ensures !IsBlank(city) && source(city).Failure? ==> r == Failure(Upstream(source(city).error))
    ensures !IsBlank(city) && source(city) == Success([]) ==> r == Success(None)
    ensures !IsBlank(city) && source(city).Success? && source(city).value != [] ==>
      r.Success? && r.value.Some? && exists i :: IsHottest(source(city).value, i) && r.value.value == source(city).value[i]
  {
    if IsBlank(city) then Failure(InvalidCity)
    else match source(city)
      case Failure(e) => Failure(Upstream(e))
      case Success(days) =>
        if days == [] then Success(None)
        else
          var i := StableOrder(days, MaxKey, true)[0];
          assert IsHottest(days, i) by {
            forall j | 0 <= j < |days| {
              FirstOfStableOrder(days, MaxKey, true, j);
            }
          }
          Success(Some(OrderBy(days, MaxKey, true)[0]))
  }

  /** GetColdestDay: `OrderBy(TemperatureMin).First()`. */
  function GetColdestDay(city: string, source: ForecastSource): (r: Result<Option<ForecastDay>, AnalysisError>)
    ensures IsBlank(city) ==> r == Failure(InvalidCity)
    ensures !IsBlank(city) && source(city).Failure? ==> r == Failure(Upstream(source(city).error))
    ensures !IsBlank(city) && source(city) == Success([]) ==> r == Success(None)
    ensures !IsBlank(city) && source(city).Success? && source(city).value != [] ==>
      r.Success? && r.value.Some? && exists i :: IsColdest(source(city).value, i) && r.value.value == source(city).value[i]
  {
    if IsBlank(city) then Failure(InvalidCity)
    else match source(city)
      case Failure(e) => Failure(Upstream(e))
      case Success(days) =>
        if days == [] then Success(None)
        else
          var i := StableOrder(days, MinKey, false)[0];
          assert IsColdest(days, i) by {
            forall j | 0 <= j < |days| {
              FirstOfStableOrder(days, MinKey, false, j);
            }
          }
          Success(Some(OrderBy(days, MinKey, false)[0]))
  }

  // ---------------------------------------------------------------------
  // Keyword classification

  const SunnyKeywords: seq<string> := ["CER SENIN", "CER VARIABIL", "CER PARTIAL NOROS", "CER TEMPORAR NOROS"]
  const CloudyKeywords: seq<string> := ["CER MAI NOROS", "CER MAI MULT NOROS"]

  /** The description contains one of the keywords, ignoring case. */
  predicate MentionsAny(description: string, keywords: seq<string>) {
    exists k :: k in keywords && ContainsIgnoreCase(description, k)
  }

  predicate IsSunny(d: ForecastDay) { MentionsAny(d.WeatherDescription, SunnyKeywords) }
  predicate IsCloudy(d: ForecastDay) { MentionsAny(d.WeatherDescription, CloudyKeywords) }

  /** The common shape of the filtering queries: validate, fetch, then the
      days satisfying `keep` (an empty result when there are no days). */
  function DaysWhere(city: string, source: ForecastSource, keep: ForecastDay -> bool): (r: Result<seq<ForecastDay>, AnalysisError>)
    ensures IsBlank(city) ==> r == Failure(InvalidCity)
    ensures !IsBlank(city) && source(city).Failure? ==> r == Failure(Upstream(source(city).error))
    ensures !IsBlank(city) && source(city).Success? ==>
      var days := source(city).value;
      && r.Success?
      && r.value == Filter(days, keep)
      && (forall d :: d in r.value <==> d in days && keep(d))
      && (forall d :: multiset(r.value)[d] == if keep(d) then multiset(days)[d] else 0)
  {
    if IsBlank(city) then Failure(InvalidCity)
    else match source(city)
      case Failure(e) => Failure(Upstream(e))
      case Success(days) =>
        if days == [] then Success([])
        else
          assert forall d :: multiset(Filter(days, keep))[d] == if keep(d) then multiset(days)[d] else 0 by {
            forall d { FilterMultiplicity(days, keep, d); }
          }
          Success(Filter(days, keep))
  }

  /** GetSunnyDays: the days whose description mentions a sunny keyword. */
  function GetSunnyDays(city: string, source: ForecastSource): (r: Result<seq<ForecastDay>, AnalysisError>)
    ensures IsBlank(city) ==> r == Failure(InvalidCity)
    ensures !IsBlank(city) && source(city).Failure? ==> r == Failure(Upstream(source(city).error))
    ensures !IsBlank(city) && source(city).Success? ==>
      var days := source(city).value;
      && r.Success?
      && r.value == Filter(days, IsSunny)
      && (forall d :: d in r.value <==> d in days && IsSunny(d))
      && (forall d :: multiset(r.value)[d] == if IsSunny(d) then multiset(days)[d] else 0)
  {
    DaysWhere(city, source, IsSunny)
  }

  /** GetCloudyDays: the days whose description mentions a cloudy keyword. */
  function GetCloudyDays(city: string, source: ForecastSource): (r: Result<seq<ForecastDay>, AnalysisError>)
    ensures IsBlank(city) ==> r == Failure(InvalidCity)
    ensures !IsBlank(city) && source(city).Failure? ==> r == Failure(Upstream(source(city).error))
    ensures !IsBlank(city) && source(city).Success? ==>
      var days := source(city).value;
      && r.Success?
      && r.value == Filter(days, IsCloudy)
      && (forall d :: d in r.value <==> d in days && IsCloudy(d))
      && (forall d :: multiset(r.value)[d] == if IsCloudy(d) then multiset(days)[d] else 0)
  {
    DaysWhere(city, source, IsCloudy)
  }

  // ---------------------------------------------------------------------
  // Trend

  /** Every day-to-day change exceeds the threshold (vacuous for one day). */
  predicate AllRising(avgs: seq<real>, threshold: real) {
    forall i :: 1 <= i < |avgs| ==> avgs[i] - avgs[i - 1] > threshold
  }

  /** Every day-to-day change is below minus the threshold. */
  predicate AllFalling(avgs: seq<real>, threshold: real) {
    forall i :: 1 <= i < |avgs| ==> avgs[i] - avgs[i - 1] < -threshold
  }

  /** The trend classification, stated over the daily averages. */
  function TrendOf(avgs: seq<real>, threshold: real): string {
    if avgs == [] then "No data"
    else if AllRising(avgs, threshold) then "Rising"
    else if |avgs| >= 2 && AllFalling(avgs, threshold) then "Falling"
    else "Stable/Mixed"
  }

  /** GetTemperatureTrend: walks consecutive daily averages, clearing the
      `rising` and `falling` flags. */
  method GetTemperatureTrend(city: string, threshold: real, source: ForecastSource) returns (r: Result<string, AnalysisError>)
    ensures IsBlank(city) ==> r == Failure(InvalidCity)
    ensures !IsBlank(city) && threshold < 0.0 ==> r == Failure(NegativeThreshold)
    ensures !IsBlank(city) && threshold >= 0.0 && source(city).Failure? ==> r == Failure(Upstream(source(city).error))
    ensures !IsBlank(city) && threshold >= 0.0 && source(city).Success? ==>
      r == Success(TrendOf(DailyAverages(source(city).value), threshold))
  {
    if IsBlank(city) {
      return Failure(InvalidCity);
    }
    if threshold < 0.0 {
      return Failure(NegativeThreshold);
    }
    var fetched := source(city);
    if fetched.Failure? {
      return Failure(Upstream(fetched.error));
    }
    var forecast := fetched.value;
    if forecast == [] {
      return Success("No data");
    }
    var dailyAverages := DailyAverages(forecast);
    var rising := true;
    var falling := true;
    for i := 1 to |dailyAverages|
      invariant rising == forall k :: 1 <= k < i ==> dailyAverages[k] - dailyAverages[k - 1] > threshold
      invariant falling == forall k :: 1 <= k < i ==> dailyAverages[k] - dailyAverages[k - 1] < -threshold
    {
      if dailyAverages[i] - dailyAverages[i - 1] > threshold {
        falling := false;
      } else if dailyAverages[i] - dailyAverages[i - 1] < -threshold {
        rising := false;
      } else {
        rising := false;
        falling := false;
      }
    }
    if rising {
      return Success("Rising");
    }
    if falling {
      return Success("Falling");
    }
    return Success("Stable/Mixed");
  }

  /** With a non-negative threshold and at least two days, the trend cannot
      be both rising and falling, so "Falling" is reported exactly when every
      change is below minus the threshold. */
  lemma FallingExactly(avgs: seq<real>, threshold: real)
    requires threshold >= 0.0 && |avgs| >= 2
    ensures TrendOf(avgs, threshold) == "Falling" <==> AllFalling(avgs, threshold)
    ensures TrendOf(avgs, threshold) == "Rising" <==> AllRising(avgs, threshold)
  {
    if AllFalling(avgs, threshold) {
      assert avgs[1] - avgs[0] < -threshold;
    }
  }

  // ---------------------------------------------------------------------
  // Top N

  /** The common shape of the top-N queries. */
  function TopN(city: string, n: int, source: ForecastSource, key: ForecastDay -> real, descending: bool): (r: Result<seq<ForecastDay>, AnalysisError>)
    ensures IsBlank(city) ==> r == Failure(InvalidCity)
    ensures !IsBlank(city) && source(city).Failure? ==> r == Failure(Upstream(source(city).error))
    ensures !IsBlank(city) && source(city) == Success([]) ==> r == Failure(NoForecast(city))
    ensures !IsBlank(city) && source(city).Success? && source(city).value != [] && n < 1 ==>
      r == Failure(CountOutOfRange)
    ensures !IsBlank(city) && source(city).Success? && source(city).value != [] && n >= 1 ==>
      var days := source(city).value;
      && r.Success?
      && |r.value| == (if n < |days| then n else |days|)
      && IsStablePrefix(days, key, descending, r.value)
      && (forall x :: x in r.value ==> x in days)
      && (forall a, b :: 0 <= a < b < |r.value| ==> InOrder(key(r.value[a]), key(r.value[b]), descending))
      && (forall j, k :: 0 <= j < |days| && 0 <= k < |r.value| && days[j] !in r.value ==>
            InOrder(key(r.value[k]), key(days[j]), descending))
  {
    if IsBlank(city) then Failure(InvalidCity)
    else match source(city)
      case Failure(e) => Failure(Upstream(e))
      case Success(forecast) =>
        if forecast == [] then Failure(NoForecast(city))
        else if n < 1 then Failure(CountOutOfRange)
        else
          var m := if n < |forecast| then n else |forecast|;
          TakeOrderBy(forecast, key, descending, m);
          Success(OrderBy(forecast, key, descending)[..m])
  }

  /** GetTopNDaysByMaxTemperature: the first n days by descending maximum. */
  function GetTopNDaysByMaxTemperature(city: string, n: int, source: ForecastSource): (r: Result<seq<ForecastDay>, AnalysisError>)
    ensures IsBlank(city) ==> r == Failure(InvalidCity)
    ensures !IsBlank(city) && source(city).Failure? ==> r == Failure(Upstream(source(city).error))
    ensures !IsBlank(city) && source(city) == Success([]) ==> r == Failure(NoForecast(city))
    ensures !IsBlank(city) && source(city).Success? && source(city).value != [] && n < 1 ==>
      r == Failure(CountOutOfRange)
    ensures !IsBlank(city) && source(city).Success? && source(city).value != [] && n >= 1 ==>
      var days := source(city).value;
      && r.Success?
      && |r.value| == (if n < |days| then n else |days|)
      && IsStablePrefix(days, MaxKey, true, r.value)
      && (forall x :: x in r.value ==> x in days)
      && (forall a, b :: 0 <= a < b < |r.value| ==> r.value[a].TemperatureMax >= r.value[b].TemperatureMax)
      && (forall j, k :: 0 <= j < |days| && 0 <= k < |r.value| && days[j] !in r.value ==>
            days[j].TemperatureMax <= r.value[k].TemperatureMax)
  {
    TopN(city, n, source, MaxKey, true)
  }

  /** GetTopNDaysByMinTemperature: the first n days by ascending minimum. */
  function GetTopNDaysByMinTemperature(city: string, n: int, source: ForecastSource): (r: Result<seq<ForecastDay>, AnalysisError>)
    ensures IsBlank(city) ==> r == Failure(InvalidCity)
    ensures !IsBlank(city) && source(city).Failure? ==> r == Failure(Upstream(source(city).error))
    ensures !IsBlank(city) && source(city) == Success([]) ==> r == Failure(NoForecast(city))
    ensures !IsBlank(city) && source(city).Success? && source(city).value != [] && n < 1 ==>
      r == Failure(CountOutOfRange)
    ensures !IsBlank(city) && source(city).Success? && source(city).value != [] && n >= 1 ==>
      var days := source(city).value;
      && r.Success?
      && |r.value| == (if n < |days| then n else |days|)
      && IsStablePrefix(days, MinKey, false, r.value)
      && (forall x :: x in r.value ==> x in days)
      && (forall a, b :: 0 <= a < b < |r.value| ==> r.value[a].TemperatureMin <= r.value[b].TemperatureMin)
      && (forall j, k :: 0 <= j < |days| && 0 <= k < |r.value| && days[j] !in r.value ==>
            r.value[k].TemperatureMin <= days[j].TemperatureMin)
  {
    TopN(city, n, source, MinKey, false)
  }

  /** Asking for the top one day by maximum gives the hottest day, and by
      minimum the coldest: both queries read the same stable order. */
  lemma TopOneIsHottestAndColdest(city: string, source: ForecastSource)
    requires !IsBlank(city) && source(city).Success? && source(city).value != []
    ensures GetTopNDaysByMaxTemperature(city, 1, source) == Success([GetHottestDay(city, source).value.value])
    ensures GetTopNDaysByMinTemperature(city, 1, source) == Success([GetColdestDay(city, source).value.value])
  {
    var days := source(city).value;
    assert OrderBy(days, MaxKey, true)[..1] == [OrderBy(days, MaxKey, true)[0]];
    assert OrderBy(days, MinKey, false)[..1] == [OrderBy(days, MinKey, false)[0]];
  }

  // ---------------------------------------------------------------------
  // Range filter

  /** The day lies entirely within the closed range [minTemp, maxTemp]. */
  predicate WithinRange(d: ForecastDay, minTemp: int, maxTemp: int) {
    d.TemperatureMin >= minTemp as real && d.TemperatureMax <= maxTemp as real
  }

  /** GetDaysWithTemperatureRange. */
  function GetDaysWithTemperatureRange(city: string, minTemp: int, maxTemp: int, source: ForecastSource): (r: Result<seq<ForecastDay>, AnalysisError>)
    ensures IsBlank(city) ==> r == Failure(InvalidCity)
    ensures !IsBlank(city) && minTemp > maxTemp ==> r == Failure(InvertedRange)
    ensures !IsBlank(city) && minTemp <= maxTemp && source(city).Failure? ==> r == Failure(Upstream(source(city).error))
    ensures !IsBlank(city) && minTemp <= maxTemp && source(city).Success? ==>
      var days := source(city).value;
      && r.Success?
      && r.value == Filter(days, d => WithinRange(d, minTemp, maxTemp))
      && (forall d :: d in r.value <==> d in days && WithinRange(d, minTemp, maxTemp))
      && (forall d :: multiset(r.value)[d] == if WithinRange(d, minTemp, maxTemp) then multiset(days)[d] else 0)
  {
    if IsBlank(city) then Failure(InvalidCity)
    else if minTemp > maxTemp then Failure(InvertedRange)
    else DaysWhere(city, source, d => WithinRange(d, minTemp, maxTemp))
  }

  /** With minTemp == maxTemp == t, only days whose minimum and maximum are
      both t are kept, for days with min <= max. */
  lemma DegenerateRange(city: string, t: int, source: ForecastSource)
    requires !IsBlank(city) && source(city).Success?
    requires forall d :: d in source(city).value ==> d.TemperatureMin <= d.TemperatureMax
    ensures forall d :: d in GetDaysWithTemperatureRange(city, t, t, source).value ==>
      d.TemperatureMin == t as real == d.TemperatureMax
  {
  }
}
