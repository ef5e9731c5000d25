/** The MCP demo server's fixed weather tool: one city gets a fixed forecast, everything else another. */
module WeatherStub {
  import opened Wrappers
  import opened Text

  datatype WeatherResponse = WeatherResponse(temp: int, weather: string)

  const Apocalypse := WeatherResponse(117, "solar apocalypse")
  const Whatever := WeatherResponse(0, "whatever")

  /** `getCurrentWeather(location)`. */
  function GetCurrentWeather(location: Option<string>): (r: WeatherResponse)
    ensures r == Apocalypse <==> location.Some? && Contains(Lower(location.value), "warsaw")
    ensures r != Apocalypse ==> r == Whatever
  {
    if location.Some? && Contains(Lower(location.value), "warsaw") then Apocalypse else Whatever
  }

  lemma LowerWarsaw()
    ensures Lower("Warsaw") == "warsaw"
  {
    var w := Lower("Warsaw");
    assert w[0] == 'w' && w[1] == 'a' && w[2] == 'r' && w[3] == 's' && w[4] == 'a' && w[5] == 'w';
  }

  /** The answer ignores the case of the location. */
  lemma StubIgnoresCase(location: string)
    ensures GetCurrentWeather(Some(Lower(location))) == GetCurrentWeather(Some(location))
  {
    assert Lower(Lower(location)) == Lower(location);
  }

  /** Any location mentioning Warsaw, whatever surrounds it, gets the fixed forecast. */
  lemma WarsawAnywhere(before: string, after: string)
    ensures GetCurrentWeather(Some(before + "Warsaw" + after)) == Apocalypse
  {
    LowerAppend(before + "Warsaw", after);
    LowerAppend(before, "Warsaw");
    LowerWarsaw();
    ContainsMiddle(Lower(before), "warsaw", Lower(after));
  }
}
