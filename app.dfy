/**
 * The two request handlers of the weather proxy, `/weather` and `/hourly`,
 * as functions from what they are given (the `city` query parameter and the
 * replies of the upstream weather provider) to the response they send and
 * the upstream requests they issue.
 *
 * An upstream reply is an input: its HTTP status and, for a 200, its decoded
 * JSON body. Whether a request is issued at all is recorded in `calls`, so
 * that a handler which answers before asking upstream can be told apart from
 * one that asks and ignores the answer.
 */
module App {
  import opened Wrappers
  import opened Numbers
  import opened PyStr

  /** The fields of the current-weather payload that the handlers read. */
  datatype CurrentWeather = CurrentWeather(
    name: string,                     // name
    temp: Number,                     // main.temp
    feelsLike: Number,                // main.feels_like
    humidity: Number,                 // main.humidity
    windSpeed: Number,                // wind.speed, in m/s
    description: string,              // weather[0].description
    rain: Option<map<string, Number>>, // the "rain" object, when the key is present
    lat: Number,                      // coord.lat
    lon: Number                       // coord.lon
  )

  /** One entry of the forecast payload's `list`. */
  datatype ForecastEntry = ForecastEntry(dtTxt: string, temp: Number)

  datatype Forecast = Forecast(list: seq<ForecastEntry>)

  /** An upstream reply; the body is only read when the status is 200. */
  datatype Reply<T> = Reply(status: int, body: T)

  /** An outbound request to the provider (API key and metric units are fixed and not recorded). */
  datatype Call = CurrentByCity(q: string) | ForecastAt(lat: Number, lon: Number)

  /** The JSON object `/weather` answers with. */
  datatype Snapshot = Snapshot(
    city: string,
    temperature: Number,
    feelsLike: Number,
    humidity: Number,
    winds: string,
    skyCondition: string,
    rain: string
  )

  datatype Response =
    | Json(snapshot: Snapshot)                                        // 200, the snapshot as JSON
    | Error(status: int, message: string)                             // {"error": message} with that status
    | Png(title: string, hours: seq<string>, temperatures: seq<Number>) // 200, the chart of this series
    | Uncaught(exception: string)                                     // an exception escapes the handler

  datatype Handled = Handled(response: Response, calls: seq<Call>)

  const MissingCity := "City parameter is required"
  const CityNotFound := "City not found."
  const ForecastFailed := "Error fetching hourly forecast data."
  const NoRain := "No rain"
  const RainLead := "Rain volume in last hour: "
  const RainTail := " mm"
  const ChartLead := "Hourly Temperature Forecast for "
  /** How many forecast entries (3-hour steps) the chart shows. */
  const ChartEntries := 8

  /** The HTTP status a response goes out with; an escaped exception becomes Flask's 500. */
  function StatusOf(resp: Response): (status: int)
    ensures resp.Json? || resp.Png? ==> status == 200
    ensures resp.Error? ==> status == resp.status
    ensures resp.Uncaught? ==> status == 500
  {
    match resp
    case Json(_) => 200
    case Error(status, _) => status
    case Png(_, _, _) => 200
    case Uncaught(_) => 500
  }

  /** The negation of Python's `not city` on `request.args.get("city")`. */
  predicate CityGiven(city: Option<string>)
    ensures city.None? ==> !CityGiven(city)
    ensures city.Some? ==> (CityGiven(city) <==> |city.value| > 0)
  {
    city.Some? && city.value != ""
  }

  /** `rain.get('1h', 0)`: the last hour's volume, 0 when the provider left it out. */
  function OneHour(rain: map<string, Number>): (v: Number)
    ensures "1h" in rain ==> v == rain["1h"]
    ensures "1h" !in rain ==> v == Int(0)
  {
    if "1h" in rain then rain["1h"] else Int(0)
  }

  /** The snapshot's `rain` text, decided by whether the payload has a "rain" key at all. */
  function RainField(rain: Option<map<string, Number>>): (msg: string)
    ensures msg == NoRain <==> rain.None?
  {
    match rain
    case None => NoRain
    case Some(m) =>
      var msg := RainLead + Str(OneHour(m)) + RainTail;
      assert msg[0] != NoRain[0];
      msg
  }

  /** Reads the volume text back out of a rain message; the partner of `RainField`. */
  function RainVolume(msg: string): Option<string> {
    if |RainLead| + |RainTail| <= |msg| && msg[..|RainLead|] == RainLead && msg[|msg| - |RainTail|..] == RainTail
    then Some(msg[|RainLead|..|msg| - |RainTail|])
    else None
  }

  /** The rain message carries exactly the volume Python prints, or none at all. */
  lemma RainVolumeOfRainField(rain: Option<map<string, Number>>)
    ensures RainVolume(RainField(rain)) == if rain.Some? then Some(Str(OneHour(rain.value))) else None
  {
    if rain.Some? {
      var v := Str(OneHour(rain.value));
      var msg := RainLead + v + RainTail;
      assert msg[..|RainLead|] == RainLead;
      assert msg[|msg| - |RainTail|..] == RainTail;
      assert msg[|RainLead|..|msg| - |RainTail|] == v;
    } else {
      assert |NoRain| < |RainLead| + |RainTail|;
    }
  }

  /**
   * The `/weather` body built from a 200 payload. `windMph` stands for
   * `str(round(speed * 2.237, 1))`, a floating-point rendering that is not
   * modelled.
   */
  function ShapeSnapshot(data: CurrentWeather, windMph: Number -> string): (s: Snapshot)
    ensures s.city == data.name
    ensures s.temperature == data.temp && s.feelsLike == data.feelsLike && s.humidity == data.humidity
    ensures s.skyCondition == Title(data.description)
    ensures s.rain == RainField(data.rain)
    ensures s.winds == windMph(data.windSpeed) + " mph"
  {
    Snapshot(
      data.name,
      data.temp,
      data.feelsLike,
      data.humidity,
      windMph(data.windSpeed) + " mph",
      Title(data.description),
      RainField(data.rain))
  }

  /** `get_weather`. */
  function HandleWeather(city: Option<string>, current: Reply<CurrentWeather>, windMph: Number -> string): (r: Handled)
    ensures r.calls == [] <==> !CityGiven(city)
    ensures !CityGiven(city) ==> r.response == Error(400, MissingCity)
    ensures CityGiven(city) ==> r.calls == [CurrentByCity(city.value)] && StatusOf(r.response) == current.status
    ensures CityGiven(city) && current.status != 200 ==> r.response == Error(current.status, CityNotFound)
    ensures r.response.Json? <==> CityGiven(city) && current.status == 200
    ensures r.response.Json? ==> r.response.snapshot == ShapeSnapshot(current.body, windMph)
  {
    if !CityGiven(city) then Handled(Error(400, MissingCity), [])
    else
      var calls := [CurrentByCity(city.value)];
      if current.status == 200 then Handled(Json(ShapeSnapshot(current.body, windMph)), calls)
      else Handled(Error(current.status, CityNotFound), calls)
  }

  /** `dt_txt.split(" ")[1][:5]`: at most five characters of the second space-separated piece. */
  function HourLabel(dtTxt: string): (hour: string)
    requires ' ' in dtTxt
    ensures |hour| <= 5 && ' ' !in hour
  {
    var piece := Split(dtTxt, ' ')[1];
    var hour := Prefix(piece, 5);
    assert forall k :: 0 <= k < |hour| ==> hour[k] == piece[k];
    hour
  }

  /** The first of the pieces is where the joined text starts. */
  lemma JoinStartsWithHead(parts: seq<string>, sep: char)
    requires |parts| >= 1
    ensures parts[0] <= Join(parts, sep)
  {
  }

  /** The label is taken from the text right after the first space. */
  lemma HourLabelAfterFirstSpace(date: string, rest: string)
    requires ' ' !in date
    ensures HourLabel(date + " " + rest) <= rest
  {
    SplitAtFirst(date, rest, ' ');
    JoinStartsWithHead(Split(rest, ' '), ' ');
  }

  /** For a `date time` stamp, the label is the first five characters of the time. */
  lemma HourLabelOfStamp(date: string, time: string)
    requires ' ' !in date && ' ' !in time
    ensures HourLabel(date + " " + time) == Prefix(time, 5)
  {
    SplitJoin([date, time], ' ');
  }

  /** A stamp with more than one space: the pieces after the time are never looked at. */
  lemma HourLabelIgnoresLaterPieces(date: string, time: string, more: string)
    requires ' ' !in date && ' ' !in time
    ensures HourLabel(date + " " + time + " " + more) == Prefix(time, 5)
  {
    SplitAtFirst(time, more, ' ');
    SplitAtFirst(date, time + " " + more, ' ');
    assert date + " " + time + " " + more == date + [' '] + (time + [' '] + more);
  }

  lemma HourLabelExample()
    ensures HourLabel("2024-05-01 12:00:00") == "12:00"
  {
    var date, time := "2024-05-01", "12:00:00";
    assert ' ' !in date && ' ' !in time;
    assert "2024-05-01 12:00:00" == date + " " + time;
    HourLabelOfStamp(date, time);
    assert Prefix(time, 5) == time[..5] == "12:00";
  }

  /** Entries whose `dt_txt` holds a space, so that `split(" ")[1]` exists. */
  predicate Splittable(entries: seq<ForecastEntry>)
    ensures Splittable(entries) <==> forall k :: 0 <= k < |entries| ==> |Split(entries[k].dtTxt, ' ')| >= 2
  {
    forall k :: 0 <= k < |entries| ==> ' ' in entries[k].dtTxt
  }

  /** `forecast_data["list"][:8]`. */
  function FirstEntries(list: seq<ForecastEntry>): (head: seq<ForecastEntry>)
    ensures |head| == if |list| < ChartEntries then |list| else ChartEntries
    ensures head <= list
  {
    if |list| < ChartEntries then list else list[..ChartEntries]
  }

  /** The `hours` comprehension: one label per entry, in order. */
  function Hours(entries: seq<ForecastEntry>): (hours: seq<string>)
    requires Splittable(entries)
    ensures |hours| == |entries|
    ensures forall k :: 0 <= k < |entries| ==> hours[k] == HourLabel(entries[k].dtTxt)
  {
    if entries == [] then [] else [HourLabel(entries[0].dtTxt)] + Hours(entries[1..])
  }

  /** The `temperatures` comprehension: one temperature per entry, in order. */
  function Temperatures(entries: seq<ForecastEntry>): (temps: seq<Number>)
    ensures |temps| == |entries|
    ensures forall k :: 0 <= k < |entries| ==> temps[k] == entries[k].temp
  {
    if entries == [] then [] else [entries[0].temp] + Temperatures(entries[1..])
  }

  /** `get_hourly`. */
  function HandleHourly(city: Option<string>, current: Reply<CurrentWeather>, forecast: Reply<Forecast>): (r: Handled)
    ensures r.calls == [] <==> !CityGiven(city)
    ensures !CityGiven(city) ==> r.response == Error(400, MissingCity)
    ensures CityGiven(city) ==> |r.calls| >= 1 && r.calls[0] == CurrentByCity(city.value)
    ensures CityGiven(city) && current.status != 200 ==> r == Handled(Error(404, CityNotFound), [CurrentByCity(city.value)])
    ensures |r.calls| == 2 <==> CityGiven(city) && current.status == 200
    ensures |r.calls| == 2 ==> r.calls[1] == ForecastAt(current.body.lat, current.body.lon)
    ensures CityGiven(city) && current.status == 200 && forecast.status != 200 ==>
              r.response == Error(forecast.status, ForecastFailed)
    ensures r.response.Png? <==>
              CityGiven(city) && current.status == 200 && forecast.status == 200
              && Splittable(FirstEntries(forecast.body.list))
    ensures CityGiven(city) && current.status == 200 && forecast.status == 200
            && !Splittable(FirstEntries(forecast.body.list)) ==>
              r.response == Uncaught("IndexError") && StatusOf(r.response) == 500
    ensures r.response.Png? ==>
              var list := forecast.body.list;
              && r.response.title == ChartLead + city.value
              && |r.response.hours| == |r.response.temperatures| == |FirstEntries(list)|
              && (forall k :: 0 <= k < |r.response.hours| ==>
                    r.response.hours[k] == HourLabel(list[k].dtTxt) && r.response.temperatures[k] == list[k].temp)
  {
    if !CityGiven(city) then Handled(Error(400, MissingCity), [])
    else
      var first := [CurrentByCity(city.value)];
      if current.status != 200 then Handled(Error(404, CityNotFound), first)
      else
        var calls := first + [ForecastAt(current.body.lat, current.body.lon)];
        if forecast.status != 200 then Handled(Error(forecast.status, ForecastFailed), calls)
        else
          var head := FirstEntries(forecast.body.list);
          if !Splittable(head) then Handled(Uncaught("IndexError"), calls)
          else Handled(Png(ChartLead + city.value, Hours(head), Temperatures(head)), calls)
  }

  /** Without a city neither endpoint asks upstream, whatever upstream would have said. */
  lemma MissingCityShortCircuits(
    city: Option<string>, current: Reply<CurrentWeather>, current': Reply<CurrentWeather>,
    forecast: Reply<Forecast>, windMph: Number -> string)
    requires !CityGiven(city)
    ensures HandleWeather(city, current, windMph) == HandleWeather(city, current', windMph)
                                                  == Handled(Error(400, MissingCity), [])
    ensures HandleHourly(city, current, forecast) == HandleHourly(city, current', forecast)
                                                  == Handled(Error(400, MissingCity), [])
  {
  }

  /**
   * On a failed current-weather lookup `/weather` passes the status through and
   * `/hourly` answers 404, so the two agree exactly when upstream said 404.
   */
  lemma NotFoundStatusesDiverge(
    city: Option<string>, current: Reply<CurrentWeather>, forecast: Reply<Forecast>, windMph: Number -> string)
    requires CityGiven(city) && current.status != 200
    ensures StatusOf(HandleHourly(city, current, forecast).response) == 404
    ensures StatusOf(HandleWeather(city, current, windMph).response) == StatusOf(HandleHourly(city, current, forecast).response)
            <==> current.status == 404
  {
  }

  /** Entries after the eighth never reach the chart, nor can they make the handler fail. */
  lemma HourlyIgnoresLaterEntries(
    city: Option<string>, current: Reply<CurrentWeather>, status: int,
    list: seq<ForecastEntry>, later: seq<ForecastEntry>)
    requires |list| >= ChartEntries
    ensures HandleHourly(city, current, Reply(status, Forecast(list + later)))
         == HandleHourly(city, current, Reply(status, Forecast(list)))
  {
    assert FirstEntries(list + later) == FirstEntries(list);
  }

  lemma SkyConditionExample()
    ensures Title("light rain") == "Light Rain"
  {
    calc {
      Title("light rain");
      { assert "light rain" == ("light" + [' ']) + "rain"; }
      Title(("light" + [' ']) + "rain");
      { TitleAfterUncased("light" + [' '], "rain"); }
      Title("light" + [' ']) + Title("rain");
      { TitleAppendUncased("light", ' '); }
      Title("light") + [' '] + Title("rain");
      { TitleLowerWord("light"); TitleLowerWord("rain"); assert Upper('l') == 'L' && Upper('r') == 'R'; }
      "Light" + [' '] + "Rain";
    }
  }

  lemma RainFieldExamples()
    ensures RainField(Some(map["1h" := Float("2.5")])) == "Rain volume in last hour: 2.5 mm"
    ensures RainField(Some(map["3h" := Float("4.1")])) == "Rain volume in last hour: 0 mm"
    ensures RainField(None) == "No rain"
  {
  }
}
