/** MeteoApiClient: turns the two upstream documents into canonical records.
    Fetching and parsing are outside the model: each operation receives the
    parsed document, or the failure that fetching or parsing produced.
    Culture-dependent number parsing is a parameter. */
module MeteoApiClient {
  import opened Wrappers
  import opened Text
  import opened Models
  import opened Sequences

  // =====================================================================
  // The "today" feed (JSON)

  /** A parsed JSON value, by `JsonValueKind`. Objects map each property
      name to its value. */
  datatype Json =
    | JNull
    | JBool(truth: bool)
    | JNumber(number: real)
    | JString(text: string)
    | JArray(items: seq<Json>)
    | JObject(members: map<string, Json>)

  /** `double.TryParse` and `int.TryParse`, as partial functions. */
  datatype NumberParsers = NumberParsers(
    parseDouble: string -> Option<real>,
    parseInt32: string -> Option<int>)

  /** The value a `TryParse` leaves in its `out` variable: the parsed number,
      or 0 when parsing fails. */
  function OrZero(parsed: Option<real>): real {
    match parsed
    case Some(v) => v
    case None => 0.0
  }

  function OrZeroInt(parsed: Option<int>): int {
    match parsed
    case Some(v) => v
    case None => 0
  }

  /** `JsonElement.GetProperty(name)`: the element must be an object (else
      InvalidOperationException) that has the property (else
      KeyNotFoundException). `owner` names the element for the error. */
  function GetProperty(e: Json, name: string, owner: string): (r: Result<Json, FeedError>)
    ensures r.Success? <==> e.JObject? && name in e.members
    ensures r.Success? ==> r.value == e.members[name]
  {
    if !e.JObject? then Failure(WrongKind(owner))
    else if name in e.members then Success(e.members[name])
    else Failure(MissingProperty(name))
  }

  /** `JsonElement.GetString()`: a string gives its text, `null` gives a null
      reference (`None`), any other kind throws. */
  function GetString(e: Json, name: string): (r: Result<Option<string>, FeedError>)
    ensures r.Success? <==> e.JString? || e.JNull?
    ensures r.Success? ==> (r.value.Some? <==> e.JString?)
    ensures r.Success? && r.value.Some? ==> r.value.value == e.text
  {
    match e
    case JString(s) => Success(Some(s))
    case JNull => Success(None)
    case _ => Failure(WrongKind(name))
  }

  predicate IsInt32(x: real) {
    x.Floor as real == x && -0x8000_0000 <= x.Floor < 0x8000_0000
  }

  /** `JsonElement.GetInt32()` on a number: FormatException unless the number
      is an integer that fits in 32 bits. */
  function GetInt32(x: real, name: string): (r: Result<int, FeedError>)
    ensures r.Success? <==> IsInt32(x)
    ensures r.Success? ==> r.value as real == x
  {
    if IsInt32(x) then Success(x.Floor) else Failure(NotInt32(name))
  }

  /** The temperature: a JSON number gives its value, a string its parsed
      value or 0, anything else (or no property) 0. */
  function TolerantTemperature(field: Option<Json>, parsers: NumberParsers): (t: real)
    ensures t != 0.0 ==>
      || field == Some(JNumber(t))
      || (field.Some? && field.value.JString? && parsers.parseDouble(field.value.text) == Some(t))
    ensures field.Some? && field.value.JNumber? ==> t == field.value.number
    ensures field.Some? && field.value.JString? && parsers.parseDouble(field.value.text).Some? ==>
      t == parsers.parseDouble(field.value.text).value
  {
    match field
    case Some(JNumber(v)) => v
    case Some(JString(s)) => OrZero(parsers.parseDouble(s))
    case _ => 0.0
  }

  /** The humidity: like the temperature, except that a JSON number must be
      an Int32 (`GetInt32` throws otherwise). */
  function TolerantHumidity(field: Option<Json>, parsers: NumberParsers): (r: Result<int, FeedError>)
    ensures r.Failure? <==> field.Some? && field.value.JNumber? && !IsInt32(field.value.number)
    ensures field.Some? && field.value.JNumber? && IsInt32(field.value.number) ==>
      r.Success? && r.value as real == field.value.number
    ensures r.Success? && r.value != 0 ==>
      || field == Some(JNumber(r.value as real))
      || (field.Some? && field.value.JString? && parsers.parseInt32(field.value.text) == Some(r.value))
    ensures r.Success? && field.Some? && field.value.JString? && parsers.parseInt32(field.value.text).Some? ==>
      r.value == parsers.parseInt32(field.value.text).value
  {
    match field
    case Some(JNumber(v)) => GetInt32(v, "umezeala")
    case Some(JString(s)) => Success(OrZeroInt(parsers.parseInt32(s)))
    case _ => Success(0)
  }

  /** The description: "indisponibil" when the property is absent or null. */
  function Description(field: Option<Json>): (r: Result<string, FeedError>)
    ensures r.Failure? <==> field.Some? && !field.value.JString? && !field.value.JNull?
    ensures r.Success? ==> r.value == if field.Some? && field.value.JString? then field.value.text else "indisponibil"
  {
    match field
    case None => Success("indisponibil")
    case Some(neb) =>
      var s :- GetString(neb, "nebulozitate");
      Success(s.GetOr("indisponibil"))
  }

  /** The properties object of a feature can be decoded: it is an object, its
      "nume" is present and a string or null, its "umezeala" (if a number) is
      an Int32, and its "nebulozitate" (if present) is a string or null. Every
      other shape of "tempe" and "umezeala" is tolerated. */
  predicate DecodableProperties(props: Json) {
    && props.JObject?
    && (var m := props.members;
        && ("umezeala" in m && m["umezeala"].JNumber? ==> IsInt32(m["umezeala"].number))
        && "nume" in m && (m["nume"].JString? || m["nume"].JNull?)
        && ("nebulozitate" in m ==> m["nebulozitate"].JString? || m["nebulozitate"].JNull?))
  }

  function Field(m: map<string, Json>, name: string): Option<Json> {
    if name in m then Some(m[name]) else None
  }

  /** One feature of the "today" feed to one snapshot. */
  function DecodeFeature(feature: Json, parsers: NumberParsers): (r: Result<WeatherSnapshot, FeedError>)
    ensures r.Success? <==> feature.JObject? && "properties" in feature.members
                            && DecodableProperties(feature.members["properties"])
    ensures r.Success? ==>
      var m := feature.members["properties"].members;
      && r.value.City == (if m["nume"].JString? then m["nume"].text else "Unknown")
      && r.value.Temperature == TolerantTemperature(Field(m, "tempe"), parsers)
      && r.value.Humidity == TolerantHumidity(Field(m, "umezeala"), parsers).value
      && r.value.WeatherDescription == Description(Field(m, "nebulozitate")).value
  {
    var props :- GetProperty(feature, "properties", "feature");
    if !props.JObject? then Failure(WrongKind("properties"))
    else
      var m := props.members;
      var temp := TolerantTemperature(Field(m, "tempe"), parsers);
      var hum :- TolerantHumidity(Field(m, "umezeala"), parsers);
      var nume :- GetProperty(props, "nume", "properties");
      var city :- GetString(nume, "nume");
      var description :- Description(Field(m, "nebulozitate"));
      Success(WeatherSnapshot(city.GetOr("Unknown"), temp, hum, description))
  }

  /** Feature k is the first one that cannot be decoded. */
  predicate IsFirstFailure(features: seq<Json>, parsers: NumberParsers, k: int) {
    && 0 <= k < |features|
    && DecodeFeature(features[k], parsers).Failure?
    && forall j :: 0 <= j < k ==> DecodeFeature(features[j], parsers).Success?
  }

  /** All features, in feed order; the first failure aborts the whole list. */
  function DecodeFeatures(features: seq<Json>, parsers: NumberParsers): Result<seq<WeatherSnapshot>, FeedError> {
    if features == [] then Success([])
    else match DecodeFeature(features[0], parsers)
      case Failure(e) => Failure(e)
      case Success(w) =>
        match DecodeFeatures(features[1..], parsers)
        case Failure(e) => Failure(e)
        case Success(rest) => Success([w] + rest)
  }

  /** Exactly one snapshot per feature, in feed order, when every feature
      decodes; otherwise the error of the first feature that does not. */
  lemma {:induction false} DecodeFeaturesInOrder(features: seq<Json>, parsers: NumberParsers)
    ensures var r := DecodeFeatures(features, parsers);
      && (r.Success? <==> forall k :: 0 <= k < |features| ==> DecodeFeature(features[k], parsers).Success?)
      && (r.Success? ==>
            && |r.value| == |features|
            && forall k :: 0 <= k < |features| ==> r.value[k] == DecodeFeature(features[k], parsers).value)
      && (r.Failure? ==>
            exists k :: IsFirstFailure(features, parsers, k) && r.error == DecodeFeature(features[k], parsers).error)
  {
    if features != [] {
      var first := DecodeFeature(features[0], parsers);
      if first.Failure? {
        assert IsFirstFailure(features, parsers, 0);
      } else {
        var tail := features[1..];
        DecodeFeaturesInOrder(tail, parsers);
        var rest := DecodeFeatures(tail, parsers);
        assert forall k :: 1 <= k < |features| ==> features[k] == tail[k - 1];
        if rest.Failure? {
          var k :| IsFirstFailure(tail, parsers, k) && rest.error == DecodeFeature(tail[k], parsers).error;
          assert IsFirstFailure(features, parsers, k + 1);
        }
      }
    }
  }

  /** The first feature that fails decides the error of the whole list. */
  lemma FirstFailureDecides(features: seq<Json>, parsers: NumberParsers, i: int)
    requires IsFirstFailure(features, parsers, i)
    ensures DecodeFeatures(features, parsers) == Failure(DecodeFeature(features[i], parsers).error)
  {
    DecodeFeaturesInOrder(features, parsers);
    var k :| IsFirstFailure(features, parsers, k)
      && DecodeFeatures(features, parsers).error == DecodeFeature(features[k], parsers).error;
    assert !(k < i) && !(i < k);
  }

  /** When every feature decodes, the list holds their snapshots in feed order. */
  lemma AllDecodedDecides(features: seq<Json>, parsers: NumberParsers, snapshots: seq<WeatherSnapshot>)
    requires |snapshots| == |features|
    requires forall k :: 0 <= k < |features| ==>
      DecodeFeature(features[k], parsers).Success? && snapshots[k] == DecodeFeature(features[k], parsers).value
    ensures DecodeFeatures(features, parsers) == Success(snapshots)
  {
    DecodeFeaturesInOrder(features, parsers);
    assert DecodeFeatures(features, parsers).value == snapshots;
  }

  /** The whole "today" document: its root must be an object whose "features"
      property is an array. */
  function DecodeToday(payload: Result<Json, FeedError>, parsers: NumberParsers): Result<seq<WeatherSnapshot>, FeedError> {
    var root :- payload;
    var features :- GetProperty(root, "features", "root");
    if !features.JArray? then Failure(WrongKind("features"))
    else DecodeFeatures(features.items, parsers)
  }

  /** The body of GetTodayWeather's loop: decodes one feature, overwriting
      `temp` and `hum` as the `TryParse` calls do. */
  method DecodeOne(feature: Json, parsers: NumberParsers) returns (r: Result<WeatherSnapshot, FeedError>)
    ensures r == DecodeFeature(feature, parsers)
  {
    var propsOrError := GetProperty(feature, "properties", "feature");
    if propsOrError.Failure? {
      return Failure(propsOrError.error);
    }
    var props := propsOrError.value;
    if !props.JObject? {
      return Failure(WrongKind("properties"));
    }

    // Temperature can be a number or a string
    var temp: real := 0.0;
    if "tempe" in props.members {
      var tempProp := props.members["tempe"];
      if tempProp.JNumber? {
        temp := tempProp.number;
      } else if tempProp.JString? {
        temp := OrZero(parsers.parseDouble(tempProp.text));
      }
    }

    // Humidity can be a number or a string
    var hum: int := 0;
    if "umezeala" in props.members {
      var humProp := props.members["umezeala"];
      if humProp.JNumber? {
        var asInt := GetInt32(humProp.number, "umezeala");
        if asInt.Failure? {
          return Failure(asInt.error);
        }
        hum := asInt.value;
      } else if humProp.JString? {
        hum := OrZeroInt(parsers.parseInt32(humProp.text));
      }
    }

    if "nume" !in props.members {
      return Failure(MissingProperty("nume"));
    }
    var nume := props.members["nume"];
    var city: string;
    if nume.JString? {
      city := nume.text;
    } else if nume.JNull? {
      city := "Unknown";
    } else {
      return Failure(WrongKind("nume"));
    }

    var description := "indisponibil";
    if "nebulozitate" in props.members {
      var nebProp := props.members["nebulozitate"];
      if nebProp.JString? {
        description := nebProp.text;
      } else if !nebProp.JNull? {
        return Failure(WrongKind("nebulozitate"));
      }
    }

    return Success(WeatherSnapshot(city, temp, hum, description));
  }

  /** GetTodayWeather: one snapshot per feature, appended in feed order; the
      first feature that cannot be decoded aborts the call. */
  method GetTodayWeather(payload: Result<Json, FeedError>, parsers: NumberParsers) returns (r: Result<seq<WeatherSnapshot>, FeedError>)
    ensures r == DecodeToday(payload, parsers)
  {
    if payload.Failure? {
      return Failure(payload.error);
    }
    var root := payload.value;
    var featuresOrError := GetProperty(root, "features", "root");
    if featuresOrError.Failure? {
      return Failure(featuresOrError.error);
    }
    var features := featuresOrError.value;
    if !features.JArray? {
      return Failure(WrongKind("features"));
    }
    var items := features.items;
    assert DecodeToday(payload, parsers) == DecodeFeatures(items, parsers);
    var weatherList: seq<WeatherSnapshot> := [];
    var i := 0;
    while i < |items|
      invariant 0 <= i <= |items|
      invariant |weatherList| == i
      invariant forall k :: 0 <= k < i ==>
        DecodeFeature(items[k], parsers).Success? && weatherList[k] == DecodeFeature(items[k], parsers).value
    {
      var snapshot := DecodeOne(items[i], parsers);
      if snapshot.Failure? {
        FirstFailureDecides(items, parsers, i);
        return Failure(snapshot.error);
      }
      weatherList := weatherList + [snapshot.value];
      i := i + 1;
    }
    AllDecodedDecides(items, parsers, weatherList);
    return Success(weatherList);
  }

  // =====================================================================
  // The forecast feed (XML)

  /** A parsed XML element: its name, its attributes, its string value (the
      concatenated text of its descendants, `XElement.Value`) and its child
      elements in document order. */
  datatype XElement = XElement(
    name: string,
    attributes: map<string, string>,
    value: string,
    children: seq<XElement>)

  /** `e.Attribute(name)?.Value`. */
  function Attribute(e: XElement, name: string): Option<string> {
    if name in e.attributes then Some(e.attributes[name]) else None
  }

  predicate Named(e: XElement, name: string) {
    e.name == name
  }

  /** `e.Elements(name)`: the child elements with that name, in order. */
  function Elements(e: XElement, name: string): seq<XElement> {
    Filter(e.children, c => Named(c, name))
  }

  /** `e.Element(name)`: the first child element with that name. */
  function Element(e: XElement, name: string): Option<XElement> {
    FirstWhere(e.children, c => Named(c, name))
  }

  /** The descendant elements of `e`, in document order. */
  function Descendants(e: XElement): seq<XElement>
    decreases e, 1
  {
    DescendantsOfAll(e.children)
  }

  function DescendantsOfAll(elements: seq<XElement>): seq<XElement>
    decreases elements, 0
  {
    if elements == [] then []
    else [elements[0]] + Descendants(elements[0]) + DescendantsOfAll(elements[1..])
  }

  /** `XDocument.Descendants()`: the root element and all its descendants. */
  function DocumentElements(root: XElement): seq<XElement> {
    [root] + Descendants(root)
  }

  /** A "localitate" element whose "nume" attribute equals the city, ignoring
      case; an element without the attribute never matches. */
  predicate IsCityNode(e: XElement, city: string) {
    Named(e, "localitate") && "nume" in e.attributes && EqualsIgnoreCase(e.attributes["nume"], city)
  }

  /** The first matching city element in document order. */
  function FindCity(root: XElement, city: string): (r: Option<XElement>)
    ensures r.None? <==> forall e :: e in DocumentElements(root) ==> !IsCityNode(e, city)
    ensures r.Some? ==> exists i :: IsFirstWhere(DocumentElements(root), e => IsCityNode(e, city), i)
                                   && r.value == DocumentElements(root)[i]
  {
    var all := DocumentElements(root);
    var r := FirstWhere(all, e => IsCityNode(e, city));
    assert r.None? ==> forall e :: e in all ==> !IsCityNode(e, city) by {
      if r.None? {
        forall e | e in all ensures !IsCityNode(e, city) {
          var i :| 0 <= i < |all| && all[i] == e;
        }
      }
    }
    r
  }

  /** A `TryParse` of an optional text: no text and unparsable text give 0. */
  function ParsedOrZero(text: Option<string>, parsers: NumberParsers): real {
    match text
    case None => 0.0
    case Some(s) => OrZero(parsers.parseDouble(s))
  }

  function ElementValue(e: XElement, name: string): Option<string> {
    match Element(e, name)
    case None => None
    case Some(c) => Some(c.value)
  }

  /** One "prognoza" element to one forecast day, with a default per field. */
  function DecodeDay(p: XElement, parsers: NumberParsers): (d: ForecastDay)
    ensures d.Date == Attribute(p, "data").GetOr("")
    ensures d.TemperatureMin != 0.0 ==>
      ElementValue(p, "temp_min").Some? && parsers.parseDouble(ElementValue(p, "temp_min").value) == Some(d.TemperatureMin)
    ensures d.TemperatureMax != 0.0 ==>
      ElementValue(p, "temp_max").Some? && parsers.parseDouble(ElementValue(p, "temp_max").value) == Some(d.TemperatureMax)
    ensures ElementValue(p, "temp_min").Some? && parsers.parseDouble(ElementValue(p, "temp_min").value).Some? ==>
      d.TemperatureMin == parsers.parseDouble(ElementValue(p, "temp_min").value).value
    ensures ElementValue(p, "temp_max").Some? && parsers.parseDouble(ElementValue(p, "temp_max").value).Some? ==>
      d.TemperatureMax == parsers.parseDouble(ElementValue(p, "temp_max").value).value
    ensures d.WeatherDescription == ElementValue(p, "fenomen_descriere").GetOr("")
  {
    ForecastDay(
      Attribute(p, "data").GetOr(""),
      ParsedOrZero(ElementValue(p, "temp_min"), parsers),
      ParsedOrZero(ElementValue(p, "temp_max"), parsers),
      ElementValue(p, "fenomen_descriere").GetOr(""))
  }

  /** The number of forecast days kept. */
  const MaxDays := 5

  /** Get5DayForecast: the first five "prognoza" children of the first
      matching city element, decoded; no matching city gives no days. */
  function Get5DayForecast(payload: Result<XElement, FeedError>, city: string, parsers: NumberParsers): (r: Result<seq<ForecastDay>, FeedError>)
    ensures payload.Failure? ==> r == Failure(payload.error)
    ensures payload.Success? ==> r.Success? && |r.value| <= MaxDays
    ensures payload.Success? && FindCity(payload.value, city).None? ==> r == Success([])
    ensures payload.Success? && FindCity(payload.value, city).Some? ==>
      var days := Elements(FindCity(payload.value, city).value, "prognoza");
      && |r.value| == (if |days| < MaxDays then |days| else MaxDays)
      && forall i :: 0 <= i < |r.value| ==> r.value[i] == DecodeDay(days[i], parsers)
  {
    var root :- payload;
    match FindCity(root, city)
    case None => Success([])
    case Some(cityNode) =>
      var days := Elements(cityNode, "prognoza");
      var kept := if |days| < MaxDays then days else days[..MaxDays];
      Success(seq(|kept|, i requires 0 <= i < |kept| => DecodeDay(kept[i], parsers)))
  }

  /** The city name is matched without regard to case: "IASI" and "Iasi"
      select the same forecast. */
  lemma ForecastIgnoresCase(payload: Result<XElement, FeedError>, a: string, b: string, parsers: NumberParsers)
    requires Lower(a) == Lower(b)
    ensures Get5DayForecast(payload, a, parsers) == Get5DayForecast(payload, b, parsers)
  {
    if payload.Success? {
      var all := DocumentElements(payload.value);
      FirstWhereCongruent(all, e => IsCityNode(e, a), e => IsCityNode(e, b));
    }
  }
}
