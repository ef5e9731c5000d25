/**
 * WeatherMCP's `getCurrentWeather` tool: the city is looked up with the
 * Open-Meteo geocoding API and the first match's coordinates are sent to the
 * forecast API, whose body is returned as it is. Both HTTP calls are
 * parameters; a coordinate is given as the text Java renders for it.
 */
module Weather {
  import opened Wrappers
  import opened Text

  const GeocodingBase := "https://geocoding-api.open-meteo.com/v1/search"
  const ForecastBase := "https://api.open-meteo.com/v1/forecast"
  const DefaultLanguage := "en"
  const Fahrenheit := "fahrenheit"
  const Celsius := "celsius"

  datatype GeoResult = GeoResult(latitude: string, longitude: string)

  /** The geocoding body: `results` may be missing. */
  datatype GeoResponse = GeoResponse(results: Option<seq<GeoResult>>)

  /** A query parameter; a `null` value is written as the bare name. */
  type Param = (string, Option<string>)

  /** The language sent to the geocoder: the one given, or `en` when it is `null` or empty. */
  function Language(language: Option<string>): (r: string)
    ensures language.Some? && language.value != "" ==> r == language.value
    ensures language.None? || language.value == "" ==> r == DefaultLanguage
    ensures r != ""
  {
    if language.Some? && language.value != "" then language.value else DefaultLanguage
  }

  /** `fahrenheit` exactly when the unit is that word in any case; `celsius` for anything else, `null` included. */
  function TemperatureUnit(unit: Option<string>): (r: string)
    ensures r == Fahrenheit <==> unit.Some? && EqualsIgnoreCase(unit.value, Fahrenheit)
    ensures r == Fahrenheit || r == Celsius
  {
    if unit.Some? && EqualsIgnoreCase(unit.value, Fahrenheit) then Fahrenheit else Celsius
  }

  function ParamText(p: Param): string {
    if p.1.Some? then p.0 + "=" + p.1.value else p.0
  }

  function ParamTexts(params: seq<Param>): (r: seq<string>)
    ensures |r| == |params| && forall i :: 0 <= i < |params| ==> r[i] == ParamText(params[i])
  {
    if params == [] then [] else [ParamText(params[0])] + ParamTexts(params[1..])
  }

  /** `UriComponentsBuilder…build().toUriString()`: the parameters, unencoded, after a `?`. */
  function UriString(base: string, params: seq<Param>): string {
    if params == [] then base else base + "?" + Join(ParamTexts(params), "&")
  }

  function GeocodingParams(city: Option<string>, language: string): seq<Param> {
    [("name", city), ("count", Some("1")), ("language", Some(language)), ("format", Some("json"))]
  }

  function ForecastParams(latitude: string, longitude: string, unit: string): seq<Param> {
    [("latitude", Some(latitude)), ("longitude", Some(longitude)), ("current_weather", Some("true")),
     ("temperature_unit", Some(unit))]
  }

  function GeocodingUrl(city: Option<string>, language: string): string {
    UriString(GeocodingBase, GeocodingParams(city, language))
  }

  function ForecastUrl(latitude: string, longitude: string, unit: string): string {
    UriString(ForecastBase, ForecastParams(latitude, longitude, unit))
  }

  /**
   * The geocoding query splits back at `&` into its four parameters, in
   * order, when neither the city nor the language contains an `&`.
   */
  lemma GeocodingQueryRoundTrip(city: string, language: string)
    requires '&' !in city && '&' !in language
    ensures var url := GeocodingUrl(Some(city), language);
      && StartsWith(url, GeocodingBase + "?")
      && Split(url[|GeocodingBase| + 1..], '&') == ["name=" + city, "count=1", "language=" + language, "format=json"]
  {
    var texts := ParamTexts(GeocodingParams(Some(city), language));
    var expected := ["name=" + city, "count=1", "language=" + language, "format=json"];
    assert texts == expected by {
      assert "name" + "=" == "name=" && "count" + "=" + "1" == "count=1";
      assert "language" + "=" == "language=" && "format" + "=" + "json" == "format=json";
      assert texts[0] == expected[0] && texts[1] == expected[1];
      assert texts[2] == expected[2] && texts[3] == expected[3];
    }
    assert forall k :: 0 <= k < |texts| ==> '&' !in texts[k] by {
      assert '&' !in "name=" + city && '&' !in "language=" + language;
    }
    JoinSplit(texts, '&');
    var url := GeocodingUrl(Some(city), language);
    assert url == (GeocodingBase + "?") + Join(texts, "&");
    assert url[|GeocodingBase| + 1..] == Join(texts, "&");
  }

  /** A URL with two or more parameters ends with `&` and the text of its last one. */
  lemma UriEndsWithLast(base: string, params: seq<Param>)
    requires |params| >= 2
    ensures EndsWith(UriString(base, params), "&" + ParamText(params[|params| - 1]))
  {
    var init := params[..|params| - 1];
    var last := ParamText(params[|params| - 1]);
    var texts := ParamTexts(params);
    assert texts == ParamTexts(init) + [last];
    JoinSnoc(ParamTexts(init), "&", last);
    var front := base + "?" + Join(ParamTexts(init), "&");
    var url := UriString(base, params);
    assert url == front + ("&" + last);
    assert url[|url| - |"&" + last|..] == "&" + last;
  }

  /** The forecast URL ends with the unit parameter, so it names exactly the unit chosen. */
  lemma ForecastUnitLast(latitude: string, longitude: string, u: string)
    ensures EndsWith(ForecastUrl(latitude, longitude, u), "&temperature_unit=" + u)
  {
    var params := ForecastParams(latitude, longitude, u);
    UriEndsWithLast(ForecastBase, params);
    assert ParamText(params[3]) == "temperature_unit" + "=" + u;
    assert "&" + ("temperature_unit" + "=" + u) == "&temperature_unit=" + u;
  }

  /** What `restClient.get()…retrieve().body(…)` throws on a transport error or a 4xx/5xx status. */
  datatype RestClientException = RestClientException(message: string)

  /**
   * What the tool answers, or the `RestClientException` it throws (a
   * transport error, or a 4xx/5xx status turned into an exception by
   * `retrieve()`), and the URLs it requested in order.
   */
  datatype Outcome = Outcome(answer: Result<Option<string>, RestClientException>, requests: seq<string>)

  function NotFound(city: Option<string>): string {
    "City not found: " + city.GetOr("null")
  }

  /** No usable geocoding match: a `null` body, missing results, or no results. */
  predicate NoMatch(geo: Option<GeoResponse>) {
    geo.None? || geo.value.results.None? || geo.value.results.value == []
  }

  /**
   * `getCurrentWeather`: a failed geocoding request throws with no forecast
   * request; without a match, the not-found message and no forecast request;
   * otherwise the forecast body (or the exception of the forecast request)
   * for the first match's coordinates in the chosen unit.
   */
  function GetCurrentWeather(city: Option<string>, unit: Option<string>, language: Option<string>,
                             geocode: string -> Result<Option<GeoResponse>, RestClientException>,
                             forecast: string -> Result<Option<string>, RestClientException>): (r: Outcome)
    ensures |r.requests| >= 1 && r.requests[0] == GeocodingUrl(city, Language(language))
    ensures geocode(r.requests[0]).Failure? ==> r == Outcome(Failure(geocode(r.requests[0]).error), [r.requests[0]])
    ensures geocode(r.requests[0]).Success? && NoMatch(geocode(r.requests[0]).value) <==>
      r.answer == Success(Some(NotFound(city))) && |r.requests| == 1
    ensures |r.requests| == 2 <==> geocode(r.requests[0]).Success? && !NoMatch(geocode(r.requests[0]).value)
    ensures |r.requests| == 2 ==>
      var first := geocode(r.requests[0]).value.value.results.value[0];
      && r.requests[1] == ForecastUrl(first.latitude, first.longitude, TemperatureUnit(unit))
      && r.answer == forecast(r.requests[1])
  {
    var lang := Language(language);
    var geoUrl := GeocodingUrl(city, lang);
    match geocode(geoUrl)
    case Failure(e) => Outcome(Failure(e), [geoUrl])
    case Success(geo) =>
      if geo.None? || geo.value.results.None? || geo.value.results.value == [] then
        Outcome(Success(Some(NotFound(city))), [geoUrl])
      else
        var location := geo.value.results.value[0];
        var weatherUrl := ForecastUrl(location.latitude, location.longitude, TemperatureUnit(unit));
        Outcome(forecast(weatherUrl), [geoUrl, weatherUrl])
  }
}
