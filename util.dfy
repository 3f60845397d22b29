/** util.py: turning Open-Meteo daily responses into the weather table, and the
    per-place date ranges that the historical request asks for. The client, its
    cache and retries, and the HTTP requests are not modelled: the responses are
    inputs, and the request is a function parameter. */
module Weather {
  import opened Tables

  /** OPENMETEO_DAILY_VARIABLES: the daily series requested, in request order. */
  const DailyVariables: seq<string> := [
    "temperature_2m_max",
    "temperature_2m_min",
    "temperature_2m_mean",
    "apparent_temperature_max",
    "apparent_temperature_min",
    "apparent_temperature_mean",
    "precipitation_sum",
    "rain_sum",
    "wind_speed_10m_max",
    "wind_direction_10m_dominant",
    "weather_code"
  ]

  const SecondsPerDay: int := 86400

  /** The daily block of one response: `Time()` and `TimeEnd()` in Unix seconds,
      `Interval()` in seconds, and `Variables(idx).ValuesAsNumpy()` for each series
      the response carries, NaN as `None`. */
  datatype Response = Response(time: int, timeEnd: int, interval: int, series: seq<seq<Option<real>>>)

  /** A row of one response's frame before `dropna`: the place key, the timestamp and
      one cell per variable column. */
  datatype RawWeatherRow = RawWeatherRow(id: string, time: int, cells: map<string, Option<real>>)

  /** `pd.date_range(start, end, freq=step, inclusive="left")`: the timestamps
      `start, start + step, ...` strictly before `end`. */
  function DateRange(start: int, end: int, step: int): (r: seq<int>)
    requires step > 0
    ensures forall i :: 0 <= i < |r| ==> r[i] == start + i * step && r[i] < end
    ensures start + |r| * step >= end
    decreases end - start
  {
    if start >= end then []
    else
      var rest := DateRange(start + step, end, step);
      assert forall i :: 1 <= i <= |rest| ==> start + step + (i - 1) * step == start + i * step;
      assert start + step + |rest| * step == start + (|rest| + 1) * step;
      [start] + rest
  }

  /** The `date` column of a response's frame; a response whose interval does not
      advance the date gives no range. */
  function Dates(resp: Response): (r: Result<seq<int>>)
    ensures r.Failure? <==> resp.interval <= 0
  {
    if resp.interval <= 0 then Failure(BadInterval)
    else Success(DateRange(resp.time, resp.timeEnd, resp.interval))
  }

  /** The variable columns of `data` after the loop over `enumerate(variables)`: the
      column `variables[idx]` set to series `idx`, a later equal name overwriting an
      earlier one; asking for a series the response does not carry fails at the
      first missing index. */
  function Columns(series: seq<seq<Option<real>>>, variables: seq<string>): (r: Result<map<string, seq<Option<real>>>>)
    ensures r.Success? <==> |variables| <= |series|
    ensures r.Failure? ==> r.error == MissingVariable(|series|)
    ensures r.Success? ==> forall v :: v in r.value <==> v in variables
  {
    if variables == [] then Success(map[])
    else
      var n := |variables| - 1;
      var front := Columns(series, variables[..n]);
      assert variables == variables[..n] + [variables[n]];
      if front.Failure? then front
      else if n >= |series| then Failure(MissingVariable(n))
      else Success(front.value[variables[n] := series[n]])
  }

  /** The inner loop of _process_weather_responses: `data[variable] = daily.Variables(idx).ValuesAsNumpy()`. */
  method BuildColumns(series: seq<seq<Option<real>>>, variables: seq<string>)
    returns (r: Result<map<string, seq<Option<real>>>>)
    ensures r == Columns(series, variables)
  {
    var data: map<string, seq<Option<real>>> := map[];
    for idx := 0 to |variables|
      invariant Columns(series, variables[..idx]) == Success(data)
    {
      assert variables[..idx + 1][..idx] == variables[..idx];
      if idx >= |series| {
        assert Columns(series, variables[..idx + 1]).Failure?;
        ColumnsFailAt(series, variables, idx);
        return Failure(MissingVariable(idx));
      }
      data := data[variables[idx] := series[idx]];
    }
    assert variables[..|variables|] == variables;
    return Success(data);
  }

  /** Once a prefix of the variables fails, the whole list fails the same way. */
  lemma ColumnsFailAt(series: seq<seq<Option<real>>>, variables: seq<string>, idx: int)
    requires 0 <= idx < |variables| && idx >= |series|
    requires Columns(series, variables[..idx]).Success?
    ensures Columns(series, variables) == Failure(MissingVariable(idx))
  {
  }

  /** `pd.DataFrame(data)`: the key broadcast to every row, one row per date, and each
      variable column's value at that row; columns of another length than the dates
      are refused. */
  function Frame(placeId: string, dates: seq<int>, cols: map<string, seq<Option<real>>>): (r: Result<seq<RawWeatherRow>>)
    ensures r.Failure? <==> exists v :: v in cols && |cols[v]| != |dates|
    ensures r.Success? ==> |r.value| == |dates|
  {
    if exists v :: v in cols && |cols[v]| != |dates| then Failure(LengthMismatch)
    else Success(seq(|dates|, j requires 0 <= j < |dates| =>
                   RawWeatherRow(placeId, dates[j], map v | v in cols :: cols[v][j])))
  }

  /** The frame built from one response for one place. */
  function ResponseFrame(resp: Response, placeId: string, variables: seq<string>): Result<seq<RawWeatherRow>>
  {
    var dates := Dates(resp);
    if dates.Failure? then Failure(dates.error)
    else
      var cols := Columns(resp.series, variables);
      if cols.Failure? then Failure(cols.error)
      else Frame(placeId, dates.value, cols.value)
  }

  /** `dataframes` after the first `n` pairs of `zip(responses, places.keys())`, or the
      error of the first response that cannot be turned into a frame. */
  function FramesUpTo(responses: seq<Response>, keys: seq<string>, variables: seq<string>, n: nat): (r: Result<seq<seq<RawWeatherRow>>>)
    requires n <= |responses| && n <= |keys|
    ensures r.Success? ==> |r.value| == n
  {
    if n == 0 then Success([])
    else
      var front := FramesUpTo(responses, keys, variables, n - 1);
      if front.Failure? then front
      else
        var f := ResponseFrame(responses[n - 1], keys[n - 1], variables);
        if f.Failure? then Failure(f.error) else Success(front.value + [f.value])
  }

  /** How many pairs `zip` makes: it stops at the shorter list. */
  function Paired(responses: seq<Response>, keys: seq<string>): (n: nat)
    ensures n <= |responses| && n <= |keys|
    ensures n == |responses| || n == |keys|
  {
    if |responses| <= |keys| then |responses| else |keys|
  }

  /** The rows with no missing value. */
  predicate Complete(r: RawWeatherRow)
  {
    forall v :: v in r.cells ==> r.cells[v].Some?
  }

  /** `result.dropna(inplace=True)`: the complete rows, in order. */
  function DropNa(rows: seq<RawWeatherRow>): (t: seq<RawWeatherRow>)
    ensures |t| <= |rows|
    ensures forall k :: 0 <= k < |t| ==> Complete(t[k])
  {
    if rows == [] then []
    else
      var x := rows[|rows| - 1];
      DropNa(rows[..|rows| - 1]) + (if Complete(x) then [x] else [])
  }

  /** `result["date"].dt.date`: the UTC day of the timestamp; the cells become plain values. */
  function WithDate(r: RawWeatherRow): (w: WeatherRow)
    requires Complete(r)
    ensures w.id == r.id
    ensures w.values.Keys == r.cells.Keys
    ensures forall v :: v in r.cells ==> r.cells[v] == Some(w.values[v])
    ensures SecondsPerDay * w.date <= r.time < SecondsPerDay * (w.date + 1)
  {
    WeatherRow(r.id, r.time / SecondsPerDay, map v | v in r.cells :: r.cells[v].value)
  }

  function WithDates(rows: seq<RawWeatherRow>): (t: seq<WeatherRow>)
    requires forall k :: 0 <= k < |rows| ==> Complete(rows[k])
    ensures |t| == |rows|
  {
    seq(|rows|, k requires 0 <= k < |rows| => WithDate(rows[k]))
  }

  /** What _process_weather_responses returns for the frames it built: their
      concatenation, which fails when there are none, without incomplete rows and
      with dates as days. */
  function WeatherTable(frames: seq<seq<RawWeatherRow>>): (r: Result<seq<WeatherRow>>)
    ensures r.Failure? <==> frames == []
  {
    if frames == [] then Failure(NoObjectsToConcatenate)
    else Success(WithDates(DropNa(Flatten(frames))))
  }

  /** The reference for _process_weather_responses. */
  function ProcessedWeather(responses: seq<Response>, keys: seq<string>, variables: seq<string>): Result<seq<WeatherRow>>
  {
    var frames := FramesUpTo(responses, keys, variables, Paired(responses, keys));
    if frames.Failure? then Failure(frames.error) else WeatherTable(frames.value)
  }

  /** _process_weather_responses: one frame per pair of response and place key, then
      concatenation, `dropna` and the conversion of timestamps to dates. */
  method ProcessWeatherResponses(responses: seq<Response>, keys: seq<string>, variables: seq<string>)
    returns (r: Result<seq<WeatherRow>>)
    ensures r == ProcessedWeather(responses, keys, variables)
  {
    var n := Paired(responses, keys);
    var dataframes: seq<seq<RawWeatherRow>> := [];
    for k := 0 to n
      invariant FramesUpTo(responses, keys, variables, k) == Success(dataframes)
    {
      var response := responses[k];
      var placeId := keys[k];
      var dates := Dates(response);
      if dates.Failure? {
        FramesFailFrom(responses, keys, variables, k + 1, n);
        return Failure(dates.error);
      }
      var data := BuildColumns(response.series, variables);
      if data.Failure? {
        FramesFailFrom(responses, keys, variables, k + 1, n);
        return Failure(data.error);
      }
      var frame := Frame(placeId, dates.value, data.value);
      if frame.Failure? {
        FramesFailFrom(responses, keys, variables, k + 1, n);
        return Failure(frame.error);
      }
      dataframes := dataframes + [frame.value];
    }
    if dataframes == [] {
      return Failure(NoObjectsToConcatenate);
    }
    var result := Flatten(dataframes);
    result := DropNa(result);
    return Success(WithDates(result));
  }

  /** A failure at pair `k` is the failure of every longer prefix. */
  lemma {:induction false} FramesFailFrom(responses: seq<Response>, keys: seq<string>, variables: seq<string>, k: nat, n: nat)
    requires k <= n <= |responses| && n <= |keys|
    requires FramesUpTo(responses, keys, variables, k).Failure?
    ensures FramesUpTo(responses, keys, variables, n) == FramesUpTo(responses, keys, variables, k)
    decreases n - k
  {
    if k < n {
      FramesFailFrom(responses, keys, variables, k, n - 1);
    }
  }

  // ---------------------------------------------------------------------------
  // Properties of the weather table

  /** With distinct names, the column named `variables[i]` holds the response's series `i`. */
  lemma {:induction false} ColumnsOfDistinct(series: seq<seq<Option<real>>>, variables: seq<string>, i: int)
    requires forall a, b :: 0 <= a < b < |variables| ==> variables[a] != variables[b]
    requires |variables| <= |series|
    requires 0 <= i < |variables|
    ensures Columns(series, variables).value[variables[i]] == series[i]
  {
    var n := |variables| - 1;
    if i < n {
      ColumnsOfDistinct(series, variables[..n], i);
    }
  }

  /** Row `j` of a response's frame: the place key, the `j`-th step of the half-open
      range [Time, TimeEnd), and a cell for exactly the requested variables; the
      frame has as many rows as that range has steps. */
  lemma ResponseFrameRows(resp: Response, placeId: string, variables: seq<string>, j: int)
    requires ResponseFrame(resp, placeId, variables).Success?
    requires 0 <= j < |ResponseFrame(resp, placeId, variables).value|
    ensures var rows := ResponseFrame(resp, placeId, variables).value;
            && rows[j].id == placeId
            && rows[j].time == resp.time + j * resp.interval
            && rows[j].time < resp.timeEnd
            && resp.time + |rows| * resp.interval >= resp.timeEnd
            && forall v :: v in rows[j].cells <==> v in variables
  {
  }

  /** With distinct names, cell `variables[i]` of row `j` is value `j` of series `i`. */
  lemma ResponseFrameCell(resp: Response, placeId: string, variables: seq<string>, j: int, i: int)
    requires forall a, b :: 0 <= a < b < |variables| ==> variables[a] != variables[b]
    requires ResponseFrame(resp, placeId, variables).Success?
    requires 0 <= j < |ResponseFrame(resp, placeId, variables).value|
    requires 0 <= i < |variables|
    ensures var row := ResponseFrame(resp, placeId, variables).value[j];
            && i < |resp.series| && j < |resp.series[i]|
            && variables[i] in row.cells && row.cells[variables[i]] == resp.series[i][j]
  {
    ColumnsOfDistinct(resp.series, variables, i);
  }

  /** The frames pair the `k`-th response with the `k`-th place key. */
  lemma {:induction false} FramesUpToAt(responses: seq<Response>, keys: seq<string>, variables: seq<string>, n: nat, k: int)
    requires n <= |responses| && n <= |keys|
    requires FramesUpTo(responses, keys, variables, n).Success?
    requires 0 <= k < n
    ensures ResponseFrame(responses[k], keys[k], variables) == Success(FramesUpTo(responses, keys, variables, n).value[k])
  {
    if k < n - 1 {
      FramesUpToAt(responses, keys, variables, n - 1, k);
    }
  }

  /** `dropna` keeps exactly the complete rows. */
  lemma {:induction false} DropNaMembers(rows: seq<RawWeatherRow>)
    ensures forall r :: r in DropNa(rows) <==> r in rows && Complete(r)
  {
    if rows != [] {
      var p := rows[..|rows| - 1];
      assert rows == p + [rows[|rows| - 1]];
      DropNaMembers(p);
    }
  }

  /** Every row of the weather table belongs to a paired place and carries a value for
      exactly the requested variables: rows from one response never carry another
      place's key, and no value is missing. */
  lemma ProcessedWeatherRows(responses: seq<Response>, keys: seq<string>, variables: seq<string>, r: WeatherRow)
    requires ProcessedWeather(responses, keys, variables).Success?
    requires r in ProcessedWeather(responses, keys, variables).value
    ensures exists k :: 0 <= k < Paired(responses, keys) && r.id == keys[k]
    ensures forall v :: v in r.values <==> v in variables
  {
    var n := Paired(responses, keys);
    var frames := FramesUpTo(responses, keys, variables, n).value;
    var kept := DropNa(Flatten(frames));
    var i :| 0 <= i < |kept| && WithDates(kept)[i] == r;
    DropNaMembers(Flatten(frames));
    FlattenMember(frames, kept[i]);
    var k, j :| 0 <= k < |frames| && 0 <= j < |frames[k]| && frames[k][j] == kept[i];
    FramesUpToAt(responses, keys, variables, n, k);
    ResponseFrameRows(responses[k], keys[k], variables, j);
  }

  /** Every complete row of the frame of pair `k` is in the weather table, dated by its day. */
  lemma ProcessedWeatherKeepsComplete(responses: seq<Response>, keys: seq<string>, variables: seq<string>, k: int, j: int)
    requires ProcessedWeather(responses, keys, variables).Success?
    requires 0 <= k < Paired(responses, keys)
    requires var f := ResponseFrame(responses[k], keys[k], variables);
             f.Success? && 0 <= j < |f.value| && Complete(f.value[j])
    ensures WithDate(ResponseFrame(responses[k], keys[k], variables).value[j]) in ProcessedWeather(responses, keys, variables).value
  {
    var n := Paired(responses, keys);
    var frames := FramesUpTo(responses, keys, variables, n).value;
    FramesUpToAt(responses, keys, variables, n, k);
    var x := frames[k][j];
    assert frames == frames[..k] + [frames[k]] + frames[k + 1..];
    FlattenMiddle(frames[..k], frames[k], frames[k + 1..]);
    assert x in Flatten(frames);
    DropNaMembers(Flatten(frames));
    var kept := DropNa(Flatten(frames));
    var i :| 0 <= i < |kept| && kept[i] == x;
    assert WithDates(kept)[i] == WithDate(x);
  }

  // ---------------------------------------------------------------------------
  // get_historical, get_forecast and get_historical_in_daterange

  /** `aq_df[aq_df["id"] == place_id]["date"].min()`: the earliest date, `None` (NaT)
      for a place without rows. */
  function EarliestDate(g: seq<AqRow>): (d: Option<Date>)
    ensures d.None? <==> g == []
    ensures d.Some? ==> exists k :: 0 <= k < |g| && g[k].date == d.value
    ensures d.Some? ==> forall k :: 0 <= k < |g| ==> d.value <= g[k].date
  {
    if g == [] then None
    else
      var x := g[|g| - 1];
      var front := EarliestDate(g[..|g| - 1]);
      if front.Some? && front.value <= x.date then front else Some(x.date)
  }

  /** `aq_df[aq_df["id"] == place_id]["date"].max()`: the latest date, `None` (NaT)
      for a place without rows. */
  function LatestDate(g: seq<AqRow>): (d: Option<Date>)
    ensures d.None? <==> g == []
    ensures d.Some? ==> exists k :: 0 <= k < |g| && g[k].date == d.value
    ensures d.Some? ==> forall k :: 0 <= k < |g| ==> g[k].date <= d.value
  {
    if g == [] then None
    else
      var x := g[|g| - 1];
      var front := LatestDate(g[..|g| - 1]);
      if front.Some? && front.value >= x.date then front else Some(x.date)
  }

  /** Place `k` is the first of the registry without air-quality rows. */
  predicate FirstPlaceWithoutRows(aq: seq<AqRow>, registry: seq<Entry>, k: int)
  {
    && 0 <= k < |registry|
    && ForLocation(aq, registry[k].place.id) == []
    && forall i :: 0 <= i < k ==> ForLocation(aq, registry[i].place.id) != []
  }

  /** The list comprehension of `start_dates` (`latest` false) or `end_dates`
      (`latest` true): one date per place in registry order, each formatted with
      `strftime`, which raises on the NaT of a place without rows. */
  function PlaceDates(aq: seq<AqRow>, registry: seq<Entry>, latest: bool): (r: Result<seq<Date>>)
    ensures r.Success? <==> forall k :: 0 <= k < |registry| ==> ForLocation(aq, registry[k].place.id) != []
    ensures r.Success? ==> |r.value| == |registry|
    ensures r.Failure? ==> exists k :: FirstPlaceWithoutRows(aq, registry, k) && r.error == NoDatesForPlace(registry[k].place.id)
  {
    if registry == [] then Success([])
    else
      var n := |registry| - 1;
      var front := PlaceDates(aq, registry[..n], latest);
      var g := ForLocation(aq, registry[n].place.id);
      var d := if latest then LatestDate(g) else EarliestDate(g);
      if front.Failure? then
        var k :| FirstPlaceWithoutRows(aq, registry[..n], k) && front.error == NoDatesForPlace(registry[..n][k].place.id);
        assert FirstPlaceWithoutRows(aq, registry, k);
        front
      else if d.None? then
        assert FirstPlaceWithoutRows(aq, registry, n);
        Failure(NoDatesForPlace(registry[n].place.id))
      else Success(front.value + [d.value])
  }

  /** The request of get_historical_in_daterange: coordinates and dates, one of each per
      place, and the daily variables. */
  datatype ArchiveParams = ArchiveParams(latitude: seq<real>, longitude: seq<real>,
                                         startDate: seq<Date>, endDate: seq<Date>, daily: seq<string>)

  /** The request of get_forecast. */
  datatype ForecastParams = ForecastParams(latitude: seq<real>, longitude: seq<real>, forecastDays: int, daily: seq<string>)

  /** `places.keys()`. */
  function Keys(registry: seq<Entry>): (ks: seq<string>)
    ensures |ks| == |registry|
    ensures forall k :: 0 <= k < |registry| ==> ks[k] == registry[k].key
  {
    seq(|registry|, k requires 0 <= k < |registry| => registry[k].key)
  }

  /** `[place["latitude"] for place in places.values()]`. */
  function Latitudes(registry: seq<Entry>): (xs: seq<real>)
    ensures |xs| == |registry|
    ensures forall k :: 0 <= k < |registry| ==> xs[k] == registry[k].place.latitude
  {
    seq(|registry|, k requires 0 <= k < |registry| => registry[k].place.latitude)
  }

  /** `[place["longitude"] for place in places.values()]`. */
  function Longitudes(registry: seq<Entry>): (xs: seq<real>)
    ensures |xs| == |registry|
    ensures forall k :: 0 <= k < |registry| ==> xs[k] == registry[k].place.longitude
  {
    seq(|registry|, k requires 0 <= k < |registry| => registry[k].place.longitude)
  }

  /** The request of get_forecast: one coordinate pair per place, in registry order. */
  function ForecastRequest(forecastDays: int, registry: seq<Entry>): (p: ForecastParams)
    ensures |p.latitude| == |registry| && |p.longitude| == |registry|
    ensures forall k :: 0 <= k < |registry| ==>
              p.latitude[k] == registry[k].place.latitude && p.longitude[k] == registry[k].place.longitude
    ensures p.forecastDays == forecastDays && p.daily == DailyVariables
  {
    ForecastParams(Latitudes(registry), Longitudes(registry), forecastDays, DailyVariables)
  }

  /** The archive request get_historical makes: each place's first and last air-quality
      date, or the error of the first place without rows. */
  function HistoricalRequest(aq: seq<AqRow>, registry: seq<Entry>): (r: Result<ArchiveParams>)
    ensures r.Success? <==> forall k :: 0 <= k < |registry| ==> ForLocation(aq, registry[k].place.id) != []
  {
    var starts := PlaceDates(aq, registry, false);
    if starts.Failure? then Failure(starts.error)
    else
      var ends := PlaceDates(aq, registry, true);
      Success(ArchiveParams(Latitudes(registry), Longitudes(registry), starts.value, ends.value, DailyVariables))
  }

  /** get_forecast: the forecast request for every place, its responses turned into the
      weather table. */
  method GetForecast(forecastDays: int, registry: seq<Entry>, forecastApi: ForecastParams -> seq<Response>)
    returns (r: Result<seq<WeatherRow>>)
    ensures r == ProcessedWeather(forecastApi(ForecastRequest(forecastDays, registry)), Keys(registry), DailyVariables)
  {
    var params := ForecastParams(Latitudes(registry), Longitudes(registry), forecastDays, DailyVariables);
    var responses := forecastApi(params);
    r := ProcessWeatherResponses(responses, Keys(registry), DailyVariables);
  }

  /** get_historical: the archive request over each place's air-quality date range, its
      responses turned into the weather table; a place without air-quality rows makes
      it fail before any request. */
  method GetHistorical(aq: seq<AqRow>, registry: seq<Entry>, archiveApi: ArchiveParams -> seq<Response>)
    returns (r: Result<seq<WeatherRow>>)
    ensures HistoricalRequest(aq, registry).Failure? ==> r == Failure(HistoricalRequest(aq, registry).error)
    ensures HistoricalRequest(aq, registry).Success? ==>
              r == ProcessedWeather(archiveApi(HistoricalRequest(aq, registry).value), Keys(registry), DailyVariables)
  {
    var startDates := PlaceDates(aq, registry, false);
    if startDates.Failure? {
      return Failure(startDates.error);
    }
    var endDates := PlaceDates(aq, registry, true);
    var params := ArchiveParams(Latitudes(registry), Longitudes(registry), startDates.value, endDates.value, DailyVariables);
    var responses := archiveApi(params);
    r := ProcessWeatherResponses(responses, Keys(registry), DailyVariables);
  }

  /** Date `k` of either list is the earliest (or latest) air-quality date of place `k`. */
  lemma {:induction false} PlaceDatesAt(aq: seq<AqRow>, registry: seq<Entry>, latest: bool, k: int)
    requires PlaceDates(aq, registry, latest).Success?
    requires 0 <= k < |registry|
    ensures var g := ForLocation(aq, registry[k].place.id);
            PlaceDates(aq, registry, latest).value[k] == (if latest then LatestDate(g) else EarliestDate(g)).value
  {
    var n := |registry| - 1;
    if k < n {
      PlaceDatesAt(aq, registry[..n], latest, k);
      assert registry[..n][k] == registry[k];
    }
  }

  /** The archive request is aligned with the registry: entry `k` of every list belongs
      to place `k`, and its start and end are the first and last days on which that
      place has an air-quality row. */
  lemma HistoricalRequestAligned(aq: seq<AqRow>, registry: seq<Entry>, k: int)
    requires HistoricalRequest(aq, registry).Success?
    requires 0 <= k < |registry|
    ensures var p := HistoricalRequest(aq, registry).value;
            var g := ForLocation(aq, registry[k].place.id);
            && |p.latitude| == |p.longitude| == |p.startDate| == |p.endDate| == |registry|
            && p.latitude[k] == registry[k].place.latitude
            && p.longitude[k] == registry[k].place.longitude
            && (exists i :: 0 <= i < |g| && g[i].date == p.startDate[k])
            && (exists i :: 0 <= i < |g| && g[i].date == p.endDate[k])
            && (forall i :: 0 <= i < |g| ==> p.startDate[k] <= g[i].date <= p.endDate[k])
            && p.daily == DailyVariables
  {
    PlaceDatesAt(aq, registry, false, k);
    PlaceDatesAt(aq, registry, true, k);
  }
}
