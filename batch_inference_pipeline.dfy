/** batch-inference-pipeline.py: the forecast loop. For every location of the
    registry, in order, the weather forecast rows from today on are paired with one
    fixed triple of lags, the pm25 of the location's three most recent observations
    of the last three days, and each pair is turned into one non-negative
    prediction. A location without forecast rows, or with fewer than three recent
    observations, is skipped. */
module Inference {
  import opened Sorting
  import opened Tables
  import opened BackfillLags
  import Weather

  /** One row of the forecast table. */
  datatype Prediction = Prediction(id: string, date: Date, predictedPm25: real, forecastDate: Date)

  /** `lagged_1`, `lagged_2` and `lagged_3` of a location, `lagged_1` the most recent. */
  datatype Lags = Lags(lagged1: real, lagged2: real, lagged3: real)

  /** The history is read from `today - 3 days` on. */
  const LookbackDays: int := 3

  /** The weather columns of the feature vector, in the order the model was trained on. */
  const FeatureWeatherColumns: seq<string> :=
    ["temperature_2m_mean", "precipitation_sum", "wind_speed_10m_max", "wind_direction_10m_dominant"]

  /** `weather_fg.filter(weather_fg.date >= today_str).read()`: the forecast rows. */
  function BatchData(weather: seq<WeatherRow>, today: Date): (b: seq<WeatherRow>)
    ensures |b| <= |weather|
    ensures forall k :: 0 <= k < |b| ==> b[k].date >= today
    ensures forall r :: r in b <==> r in weather && r.date >= today
  {
    if weather == [] then []
    else
      var x := weather[|weather| - 1];
      assert weather == weather[..|weather| - 1] + [x];
      BatchData(weather[..|weather| - 1], today) + (if x.date >= today then [x] else [])
  }

  /** `air_quality_fg.filter(air_quality_fg.date >= lookback_date).read()`. */
  function RecentHistory(aq: seq<AqRow>, today: Date): (h: seq<AqRow>)
    ensures |h| <= |aq|
    ensures forall k :: 0 <= k < |h| ==> h[k].date >= today - LookbackDays
    ensures forall r :: r in h <==> r in aq && r.date >= today - LookbackDays
  {
    if aq == [] then []
    else
      var x := aq[|aq| - 1];
      assert aq == aq[..|aq| - 1] + [x];
      RecentHistory(aq[..|aq| - 1], today) + (if x.date >= today - LookbackDays then [x] else [])
  }

  /** The order of `sort_values('date', ascending=False)`. */
  predicate DateDesc(a: AqRow, b: AqRow)
  {
    a.date >= b.date
  }

  /** `historical_aq[historical_aq['id'] == location_id].sort_values('date', ascending=False)`. */
  function LocationHistory(historical: seq<AqRow>, key: string): (h: seq<AqRow>)
    ensures |h| == |ForLocation(historical, key)|
    ensures multiset(h) == multiset(ForLocation(historical, key))
  {
    SortBy(ForLocation(historical, key), DateDesc)
  }

  /** The lags of a location: the pm25 of `iloc[0]`, `iloc[1]` and `iloc[2]` of its
      history, or nothing when it has fewer than three rows. */
  function LagsOf(h: seq<AqRow>): (l: Option<Lags>)
    ensures l.Some? <==> |h| >= 3
  {
    if |h| < 3 then None else Some(Lags(h[0].pm25, h[1].pm25, h[2].pm25))
  }

  /** A weather row holds the four columns the feature vector reads. */
  predicate HasFeatureColumns(w: WeatherRow)
  {
    && FeatureWeatherColumns[0] in w.values
    && FeatureWeatherColumns[1] in w.values
    && FeatureWeatherColumns[2] in w.values
    && FeatureWeatherColumns[3] in w.values
  }

  /** `feature_row`: the three lags, then the four weather values, in training order. */
  function FeatureVector(lags: Lags, w: WeatherRow): (v: seq<real>)
    requires HasFeatureColumns(w)
    ensures |v| == 3 + |FeatureWeatherColumns|
    ensures v[..3] == [lags.lagged1, lags.lagged2, lags.lagged3]
    ensures forall c :: 0 <= c < |FeatureWeatherColumns| ==> v[3 + c] == w.values[FeatureWeatherColumns[c]]
  {
    [lags.lagged1, lags.lagged2, lags.lagged3,
     w.values[FeatureWeatherColumns[0]], w.values[FeatureWeatherColumns[1]],
     w.values[FeatureWeatherColumns[2]], w.values[FeatureWeatherColumns[3]]]
  }

  /** `max(0, prediction)`. */
  function ClipNegative(p: real): (c: real)
    ensures c >= 0.0
    ensures c >= p
    ensures c == p || c == 0.0
  {
    if p > 0.0 then p else 0.0
  }

  /** The predictions of one location, one per forecast row, in the rows' order. */
  function LocationPredictions(key: string, w: seq<WeatherRow>, lags: Lags,
                               predict: seq<real> -> real, today: Date): (ps: seq<Prediction>)
    requires forall k :: 0 <= k < |w| ==> HasFeatureColumns(w[k])
    ensures |ps| == |w|
  {
    if w == [] then []
    else
      var x := w[|w| - 1];
      LocationPredictions(key, w[..|w| - 1], lags, predict, today)
        + [Prediction(key, x.date, ClipNegative(predict(FeatureVector(lags, x))), today)]
  }

  /** Prediction `k` of a location is made from forecast row `k`: the location's
      id, the row's date, the clipped prediction of the row's feature vector, and today
      as the forecast date. */
  lemma {:induction false} LocationPredictionsAt(key: string, w: seq<WeatherRow>, lags: Lags,
                                                 predict: seq<real> -> real, today: Date, k: int)
    requires forall i :: 0 <= i < |w| ==> HasFeatureColumns(w[i])
    requires 0 <= k < |w|
    ensures LocationPredictions(key, w, lags, predict, today)[k]
            == Prediction(key, w[k].date, ClipNegative(predict(FeatureVector(lags, w[k]))), today)
  {
    var p := w[..|w| - 1];
    if k < |p| {
      LocationPredictionsAt(key, p, lags, predict, today, k);
    }
  }

  /** Every forecast row holds the four feature columns. */
  predicate ForecastColumns(batch: seq<WeatherRow>)
  {
    forall k :: 0 <= k < |batch| ==> HasFeatureColumns(batch[k])
  }

  lemma WeatherForColumns(batch: seq<WeatherRow>, key: string)
    requires ForecastColumns(batch)
    ensures ForecastColumns(WeatherFor(batch, key))
  {
    var w := WeatherFor(batch, key);
    WeatherForMembers(batch, key);
    forall k | 0 <= k < |w| ensures HasFeatureColumns(w[k]) {
      assert w[k] in batch;
    }
  }

  /** What one registry entry adds to `predictions_list`. */
  function Contribution(e: Entry, batch: seq<WeatherRow>, historical: seq<AqRow>,
                        predict: seq<real> -> real, today: Date): seq<Prediction>
    requires ForecastColumns(batch)
  {
    var w := WeatherFor(batch, e.key);
    WeatherForColumns(batch, e.key);
    if w == [] then []
    else
      var lags := LagsOf(LocationHistory(historical, e.key));
      if lags.None? then []
      else LocationPredictions(e.key, w, lags.value, predict, today)
  }

  /** What each registry entry adds to `predictions_list`, in registry order. */
  function Contributions(registry: seq<Entry>, batch: seq<WeatherRow>, historical: seq<AqRow>,
                         predict: seq<real> -> real, today: Date): (cs: seq<seq<Prediction>>)
    requires ForecastColumns(batch)
    ensures |cs| == |registry|
  {
    seq(|registry|, k requires 0 <= k < |registry| => Contribution(registry[k], batch, historical, predict, today))
  }

  /** `predictions_list` after the loop over the registry. */
  function Predictions(registry: seq<Entry>, batch: seq<WeatherRow>, historical: seq<AqRow>,
                       predict: seq<real> -> real, today: Date): seq<Prediction>
    requires ForecastColumns(batch)
  {
    Flatten(Contributions(registry, batch, historical, predict, today))
  }

  /** One more registry entry appends its contribution. */
  lemma PredictionsSnoc(registry: seq<Entry>, batch: seq<WeatherRow>, historical: seq<AqRow>,
                        predict: seq<real> -> real, today: Date)
    requires ForecastColumns(batch)
    requires registry != []
    ensures Predictions(registry, batch, historical, predict, today)
            == Predictions(registry[..|registry| - 1], batch, historical, predict, today)
               + Contribution(registry[|registry| - 1], batch, historical, predict, today)
  {
    var cs := Contributions(registry, batch, historical, predict, today);
    assert cs[..|cs| - 1] == Contributions(registry[..|registry| - 1], batch, historical, predict, today);
  }

  /** The inner loop over `location_weather.iterrows()`: one clipped prediction per
      forecast row appended to `predictions_list`, all with the same lags. */
  method AppendLocationPredictions(predictions: seq<Prediction>, locationId: string, locationWeather: seq<WeatherRow>,
                                   lags: Lags, predict: seq<real> -> real, today: Date)
    returns (out: seq<Prediction>)
    requires forall k :: 0 <= k < |locationWeather| ==> HasFeatureColumns(locationWeather[k])
    ensures out == predictions + LocationPredictions(locationId, locationWeather, lags, predict, today)
  {
    out := predictions;
    for i := 0 to |locationWeather|
      invariant out == predictions + LocationPredictions(locationId, locationWeather[..i], lags, predict, today)
    {
      assert locationWeather[..i + 1][..i] == locationWeather[..i];
      var weatherRow := locationWeather[i];
      var prediction := predict(FeatureVector(lags, weatherRow));
      prediction := ClipNegative(prediction);
      out := out + [Prediction(locationId, weatherRow.date, prediction, today)];
    }
    assert locationWeather[..|locationWeather|] == locationWeather;
  }

  /** The loop of batch-inference-pipeline.py over `locations.items()`. */
  method PredictForecasts(registry: seq<Entry>, batch: seq<WeatherRow>, historical: seq<AqRow>,
                          predict: seq<real> -> real, today: Date)
    returns (predictions: seq<Prediction>)
    requires ForecastColumns(batch)
    ensures predictions == Predictions(registry, batch, historical, predict, today)
  {
    predictions := [];
    for n := 0 to |registry|
      invariant predictions == Predictions(registry[..n], batch, historical, predict, today)
    {
      assert registry[..n + 1][..n] == registry[..n];
      PredictionsSnoc(registry[..n + 1], batch, historical, predict, today);
      var locationId := registry[n].key;
      var locationWeather := WeatherFor(batch, locationId);
      if locationWeather == [] {
        continue;
      }
      var locationHistory := LocationHistory(historical, locationId);
      if |locationHistory| < 3 {
        continue;
      }
      var lags := Lags(locationHistory[0].pm25, locationHistory[1].pm25, locationHistory[2].pm25);
      WeatherForColumns(batch, locationId);
      predictions := AppendLocationPredictions(predictions, locationId, locationWeather, lags, predict, today);
    }
    assert registry[..|registry|] == registry;
  }

  /** The inference run: forecast rows from today on, history of the last three days
      sorted by `(id, date)`, then the loop over the registry. */
  method BatchInference(registry: seq<Entry>, weather: seq<WeatherRow>, aq: seq<AqRow>,
                        predict: seq<real> -> real, today: Date)
    returns (predictions: seq<Prediction>)
    requires ForecastColumns(weather)
    ensures ForecastColumns(BatchData(weather, today))
    ensures predictions == Predictions(registry, BatchData(weather, today),
                                       SortByIdDate(RecentHistory(aq, today)), predict, today)
  {
    var batchData := BatchData(weather, today);
    assert ForecastColumns(batchData) by {
      BatchDataColumns(weather, today);
    }
    var historicalAq := SortByIdDate(RecentHistory(aq, today));
    predictions := PredictForecasts(registry, batchData, historicalAq, predict, today);
  }

  lemma {:induction false} BatchDataColumns(weather: seq<WeatherRow>, today: Date)
    requires ForecastColumns(weather)
    ensures ForecastColumns(BatchData(weather, today))
  {
    if weather != [] {
      var p := weather[..|weather| - 1];
      assert ForecastColumns(p);
      BatchDataColumns(p, today);
    }
  }

  // ---------------------------------------------------------------------------
  // Properties

  lemma PredictionsAppend(a: seq<Entry>, b: seq<Entry>, batch: seq<WeatherRow>, historical: seq<AqRow>,
                          predict: seq<real> -> real, today: Date)
    requires ForecastColumns(batch)
    ensures Predictions(a + b, batch, historical, predict, today)
            == Predictions(a, batch, historical, predict, today) + Predictions(b, batch, historical, predict, today)
  {
    var ca := Contributions(a, batch, historical, predict, today);
    var cb := Contributions(b, batch, historical, predict, today);
    var cab := Contributions(a + b, batch, historical, predict, today);
    forall k | 0 <= k < |cab| ensures cab[k] == (ca + cb)[k] {
      if k < |a| {
        assert (a + b)[k] == a[k];
      } else {
        assert (a + b)[k] == b[k - |a|];
      }
    }
    assert cab == ca + cb;
    FlattenAppend(ca, cb);
  }

  /** Predictions follow the registry: the predictions of location `k` come right after
      those of the locations before it. */
  lemma PredictionsInRegistryOrder(registry: seq<Entry>, batch: seq<WeatherRow>, historical: seq<AqRow>,
                                   predict: seq<real> -> real, today: Date, k: int)
    requires ForecastColumns(batch)
    requires 0 <= k < |registry|
    ensures Predictions(registry, batch, historical, predict, today)
            == Predictions(registry[..k], batch, historical, predict, today)
               + Contribution(registry[k], batch, historical, predict, today)
               + Predictions(registry[k + 1..], batch, historical, predict, today)
  {
    ContributionsSplit(registry, batch, historical, predict, today, k);
    FlattenSplit(Contributions(registry, batch, historical, predict, today), k);
  }

  /** The contributions before and after entry `k` are those of the registry before and after it. */
  lemma ContributionsSplit(registry: seq<Entry>, batch: seq<WeatherRow>, historical: seq<AqRow>,
                           predict: seq<real> -> real, today: Date, k: int)
    requires ForecastColumns(batch)
    requires 0 <= k < |registry|
    ensures var cs := Contributions(registry, batch, historical, predict, today);
            && cs[..k] == Contributions(registry[..k], batch, historical, predict, today)
            && cs[k + 1..] == Contributions(registry[k + 1..], batch, historical, predict, today)
  {
    var cs := Contributions(registry, batch, historical, predict, today);
    assert cs[..k] == Contributions(registry[..k], batch, historical, predict, today);
    assert cs[k + 1..] == Contributions(registry[k + 1..], batch, historical, predict, today);
  }


  /** A location without forecast rows adds no prediction. */
  lemma NoWeatherNoPredictions(e: Entry, batch: seq<WeatherRow>, historical: seq<AqRow>,
                               predict: seq<real> -> real, today: Date)
    requires ForecastColumns(batch)
    requires forall k :: 0 <= k < |batch| ==> batch[k].id != e.key
    ensures Contribution(e, batch, historical, predict, today) == []
  {
    WeatherForAbsent(batch, e.key);
  }

  /** A location with fewer than three observations in the history adds no prediction. */
  lemma ShortHistoryNoPredictions(e: Entry, batch: seq<WeatherRow>, historical: seq<AqRow>,
                                  predict: seq<real> -> real, today: Date)
    requires ForecastColumns(batch)
    requires |ForLocation(historical, e.key)| < 3
    ensures Contribution(e, batch, historical, predict, today) == []
  {
  }

  /** Prediction `k` of a location exists only when the location qualifies, and is made
      from its forecast row `k` and its one lag triple. */
  lemma ContributionAt(e: Entry, batch: seq<WeatherRow>, historical: seq<AqRow>,
                       predict: seq<real> -> real, today: Date, k: int)
    requires ForecastColumns(batch)
    requires 0 <= k < |Contribution(e, batch, historical, predict, today)|
    ensures var w := WeatherFor(batch, e.key);
            var h := LocationHistory(historical, e.key);
            && |h| >= 3
            && k < |w|
            && HasFeatureColumns(w[k])
            && Contribution(e, batch, historical, predict, today)[k]
               == Prediction(e.key, w[k].date, ClipNegative(predict(FeatureVector(Lags(h[0].pm25, h[1].pm25, h[2].pm25), w[k]))), today)
  {
    var w := WeatherFor(batch, e.key);
    var h := LocationHistory(historical, e.key);
    WeatherForColumns(batch, e.key);
    LocationPredictionsAt(e.key, w, Lags(h[0].pm25, h[1].pm25, h[2].pm25), predict, today, k);
  }

  /** A location with forecast rows and at least three observations gets one prediction
      per forecast row, in the rows' order: its own id, the row's date, today as the
      forecast date, a non-negative value, and the clipped prediction of the feature
      vector made of the row and the location's one lag triple. */
  lemma QualifyingLocation(e: Entry, batch: seq<WeatherRow>, historical: seq<AqRow>,
                           predict: seq<real> -> real, today: Date)
    requires ForecastColumns(batch)
    requires WeatherFor(batch, e.key) != []
    requires |ForLocation(historical, e.key)| >= 3
    ensures var w := WeatherFor(batch, e.key);
            var h := LocationHistory(historical, e.key);
            var ps := Contribution(e, batch, historical, predict, today);
            && |h| >= 3
            && |ps| == |w|
            && forall k :: 0 <= k < |w| ==>
                 && HasFeatureColumns(w[k])
                 && ps[k].id == e.key
                 && ps[k].date == w[k].date
                 && ps[k].forecastDate == today
                 && ps[k].predictedPm25 >= 0.0
                 && ps[k].predictedPm25
                    == ClipNegative(predict(FeatureVector(Lags(h[0].pm25, h[1].pm25, h[2].pm25), w[k])))
  {
    var w := WeatherFor(batch, e.key);
    var ps := Contribution(e, batch, historical, predict, today);
    WeatherForColumns(batch, e.key);
    assert |ps| == |w|;
    forall k | 0 <= k < |w|
      ensures ps[k] == Prediction(e.key, w[k].date, ClipNegative(predict(FeatureVector(
                         Lags(LocationHistory(historical, e.key)[0].pm25, LocationHistory(historical, e.key)[1].pm25,
                              LocationHistory(historical, e.key)[2].pm25), w[k]))), today)
    {
      ContributionAt(e, batch, historical, predict, today, k);
    }
  }

  /** Every prediction is non-negative and dated by the run. */
  lemma PredictionsNonNegative(registry: seq<Entry>, batch: seq<WeatherRow>, historical: seq<AqRow>,
                               predict: seq<real> -> real, today: Date)
    requires ForecastColumns(batch)
    ensures forall p :: p in Predictions(registry, batch, historical, predict, today) ==>
              p.predictedPm25 >= 0.0 && p.forecastDate == today
  {
    var cs := Contributions(registry, batch, historical, predict, today);
    forall p: Prediction | p in Flatten(cs) ensures p.predictedPm25 >= 0.0 && p.forecastDate == today {
      FlattenMember(cs, p);
      var i, j :| 0 <= i < |cs| && 0 <= j < |cs[i]| && cs[i][j] == p;
      ContributionAt(registry[i], batch, historical, predict, today, j);
    }
  }

  /** Every prediction names a location of the registry and the place and date of a
      forecast row. */
  lemma PredictionsFromForecastRows(registry: seq<Entry>, batch: seq<WeatherRow>, historical: seq<AqRow>,
                                    predict: seq<real> -> real, today: Date)
    requires ForecastColumns(batch)
    ensures forall p :: p in Predictions(registry, batch, historical, predict, today) ==>
              (exists k :: 0 <= k < |registry| && registry[k].key == p.id)
              && (exists w :: w in batch && w.id == p.id && w.date == p.date)
  {
    var cs := Contributions(registry, batch, historical, predict, today);
    forall p: Prediction | p in Flatten(cs)
      ensures (exists k :: 0 <= k < |registry| && registry[k].key == p.id)
              && (exists x :: x in batch && x.id == p.id && x.date == p.date)
    {
      FlattenMember(cs, p);
      var i, j :| 0 <= i < |cs| && 0 <= j < |cs[i]| && cs[i][j] == p;
      ContributionAt(registry[i], batch, historical, predict, today, j);
      var w := WeatherFor(batch, registry[i].key);
      WeatherForMembers(batch, registry[i].key);
      assert w[j] in batch;
    }
  }

  /** The lag triple is the pm25 of the location's three most recent observations,
      newest first: each of them is an observation of the location in the history,
      they are in descending date order, and every other observation of the location
      is no more recent than the third. */
  lemma LagsAreMostRecent(historical: seq<AqRow>, key: string)
    requires |ForLocation(historical, key)| >= 3
    ensures var h := LocationHistory(historical, key);
            && |h| == |ForLocation(historical, key)|
            && LagsOf(h) == Some(Lags(h[0].pm25, h[1].pm25, h[2].pm25))
            && h[0] in historical && h[1] in historical && h[2] in historical
            && h[0].id == key && h[1].id == key && h[2].id == key
            && h[0].date >= h[1].date >= h[2].date
            && forall i :: 3 <= i < |h| ==> h[i].date <= h[2].date
  {
    var g := ForLocation(historical, key);
    var h := LocationHistory(historical, key);
    assert |h| == |multiset(h)| == |multiset(g)|;
    DateDescTotalPreorder();
    SortBySorted(g, DateDesc);
    ForLocationMembers(historical, key);
    assert h[0] in multiset(g) && h[1] in multiset(g) && h[2] in multiset(g);
  }

  /** The history a location's lags are read from holds exactly its stored rows dated
      `today - 3` or later: the filter and the sort lose none and add none. */
  lemma LocationHistoryFromStore(aq: seq<AqRow>, today: Date, key: string)
    ensures var h := LocationHistory(SortByIdDate(RecentHistory(aq, today)), key);
            forall r :: r in h <==> r in aq && r.id == key && r.date >= today - LookbackDays
  {
    var recent := RecentHistory(aq, today);
    var historical := SortByIdDate(recent);
    var g := ForLocation(historical, key);
    var h := LocationHistory(historical, key);
    ForLocationMembers(historical, key);
    forall r ensures r in h <==> r in aq && r.id == key && r.date >= today - LookbackDays {
      assert r in h <==> r in multiset(h);
      assert r in g <==> r in multiset(g);
      assert r in historical <==> r in multiset(historical);
      assert r in recent <==> r in multiset(recent);
    }
  }

  lemma DateDescTotalPreorder()
    ensures TotalPreorder(DateDesc)
  {
  }

  /** The weather columns the model reads are daily variables 2, 6, 8 and 9 of the request. */
  lemma FeatureColumnsRequested()
    ensures FeatureWeatherColumns[0] == Weather.DailyVariables[2]
    ensures FeatureWeatherColumns[1] == Weather.DailyVariables[6]
    ensures FeatureWeatherColumns[2] == Weather.DailyVariables[8]
    ensures FeatureWeatherColumns[3] == Weather.DailyVariables[9]
  {
  }

  /** Every row of a weather table built from the requested daily variables holds the
      four columns the model reads. */
  lemma WeatherTableHasFeatureColumns(responses: seq<Weather.Response>, keys: seq<string>)
    requires Weather.ProcessedWeather(responses, keys, Weather.DailyVariables).Success?
    ensures ForecastColumns(Weather.ProcessedWeather(responses, keys, Weather.DailyVariables).value)
  {
    var t := Weather.ProcessedWeather(responses, keys, Weather.DailyVariables).value;
    FeatureColumnsRequested();
    forall k | 0 <= k < |t| ensures HasFeatureColumns(t[k]) {
      Weather.ProcessedWeatherRows(responses, keys, Weather.DailyVariables, t[k]);
    }
  }
}
