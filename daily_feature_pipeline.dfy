/** daily-feature-pipeline.py: today's air-quality rows are fetched location by
    location (a failing location is skipped), and each row gets its lags by
    calendar lookup: `lagged_k` is the pm25 stored for the same location exactly
    k days before the row's date, looked up in the rows stored in the last four
    days, or missing when there is no such row. No row is ever dropped. */
module DailyLags {
  import opened Sorting
  import opened Tables

  /** The look-back window: history is read from `today - 4 days` on. */
  const LagWindowDays: int := 4

  /** `air_quality_fg.filter(air_quality_fg.date >= last_4_days).read()`. */
  function Window(store: seq<AqRow>, today: Date): (w: seq<AqRow>)
    ensures |w| <= |store|
    ensures forall k :: 0 <= k < |w| ==> w[k].date >= today - LagWindowDays
  {
    if store == [] then []
    else
      var x := store[|store| - 1];
      Window(store[..|store| - 1], today) + (if x.date >= today - LagWindowDays then [x] else [])
  }

  /** The window holds exactly the stored rows dated `today - 4` or later. */
  lemma {:induction false} WindowMembers(store: seq<AqRow>, today: Date)
    ensures forall r :: r in Window(store, today) <==> r in store && r.date >= today - LagWindowDays
  {
    if store != [] {
      var p := store[..|store| - 1];
      assert store == p + [store[|store| - 1]];
      WindowMembers(p, today);
    }
  }

  predicate DateLe(a: AqRow, b: AqRow)
  {
    a.date <= b.date
  }

  /** `location_history[location_history['date'] == d]`: the rows dated `d`, in order. */
  function OnDate(h: seq<AqRow>, d: Date): (m: seq<AqRow>)
    ensures |m| <= |h|
    ensures forall k :: 0 <= k < |m| ==> m[k].date == d
  {
    if h == [] then []
    else OnDate(h[..|h| - 1], d) + (if h[|h| - 1].date == d then [h[|h| - 1]] else [])
  }

  /** The lookup of add_lagged_features: the location's history sorted by date, the
      rows dated `d`, and the pm25 of the first of them (`iloc[0]`), if any. */
  function LookupLag(history: seq<AqRow>, id: string, d: Date): Option<real>
  {
    var m := OnDate(SortBy(ForLocation(history, id), DateLe), d);
    if m == [] then None else Some(m[0].pm25)
  }

  /** Whether a row is the observation of location `id` on day `d`. */
  predicate IsObservation(r: AqRow, id: string, d: Date)
  {
    r.id == id && r.date == d
  }

  /** Reference for the lookup: the pm25 of the earliest row of `h` that is the
      observation of `id` on `d`. */
  function FirstMatch(h: seq<AqRow>, id: string, d: Date): Option<real>
  {
    if h == [] then None
    else
      var f := FirstMatch(h[..|h| - 1], id, d);
      if f.Some? then f
      else if IsObservation(h[|h| - 1], id, d) then Some(h[|h| - 1].pm25)
      else None
  }

  /** The row with its three lags: the observations of its location 1, 2 and 3 days
      before its date. */
  function DailyRow(r: AqRow, history: seq<AqRow>): AqRow
  {
    r.(lagged1 := FirstMatch(history, r.id, r.date - 1),
       lagged2 := FirstMatch(history, r.id, r.date - 2),
       lagged3 := FirstMatch(history, r.id, r.date - 3))
  }

  /** The row with lags 1 up to `n - 1` looked up, the others as they were. */
  function LagsBefore(r: AqRow, history: seq<AqRow>, n: int): AqRow
  {
    r.(lagged1 := if n > 1 then FirstMatch(history, r.id, r.date - 1) else r.lagged1,
       lagged2 := if n > 2 then FirstMatch(history, r.id, r.date - 2) else r.lagged2,
       lagged3 := if n > 3 then FirstMatch(history, r.id, r.date - 3) else r.lagged3)
  }

  /** What add_lagged_features makes of today's frame: every row kept, in order,
      with the same observation, and lags from the history. */
  function DailyLagged(frame: seq<AqRow>, history: seq<AqRow>): (t: seq<AqRow>)
    ensures |t| == |frame|
    ensures forall i :: 0 <= i < |frame| ==> SameObservation(t[i], frame[i])
  {
    seq(|frame|, i requires 0 <= i < |frame| => DailyRow(frame[i], history))
  }

  /** The body of the loop over `air_quality_df.iterrows()`: the three lags of row
      `idx`, each written with `.loc[idx, f'lagged_{lag}']`. */
  method AddRowLags(frame: array<AqRow>, idx: int, history: seq<AqRow>)
    requires 0 <= idx < frame.Length
    modifies frame
    ensures frame[idx] == DailyRow(old(frame[idx]), history)
    ensures forall i :: 0 <= i < frame.Length && i != idx ==> frame[i] == old(frame[i])
  {
    var row := frame[idx];
    var locationHistory := SortBy(ForLocation(history, row.id), DateLe);
    for lag := 1 to 4
      invariant frame[idx] == LagsBefore(row, history, lag)
      invariant forall i :: 0 <= i < frame.Length && i != idx ==> frame[i] == old(frame[i])
    {
      var lagData := OnDate(locationHistory, row.date - lag);
      var v := if lagData != [] then Some(lagData[0].pm25) else None;
      assert v == FirstMatch(history, row.id, row.date - lag) by {
        LagLookupStep(history, row.id, row.date - lag, locationHistory, lagData);
      }
      frame[idx] := WithLag(frame[idx], lag, v);
      assert frame[idx] == LagsBefore(row, history, lag + 1) by {
        RowExtensionality(frame[idx], LagsBefore(row, history, lag + 1));
      }
    }
  }

  /** add_lagged_features of daily-feature-pipeline.py: writes the three lag columns of
      every row of the frame in place, from the history window. */
  method AddLaggedFeatures(frame: array<AqRow>, store: seq<AqRow>, today: Date)
    modifies frame
    ensures frame[..] == DailyLagged(old(frame[..]), Window(store, today))
  {
    var history := Window(store, today);
    for idx := 0 to frame.Length
      invariant forall i :: 0 <= i < idx ==> frame[i] == DailyRow(old(frame[i]), history)
      invariant forall i :: idx <= i < frame.Length ==> frame[i] == old(frame[i])
    {
      AddRowLags(frame, idx, history);
    }
  }

  /** The loop over the registry: the rows of every location whose fetch succeeds,
      in registry order; a location whose fetch raises contributes nothing. */
  function Successful(registry: seq<Entry>, fetch: (string, Location) -> Option<seq<AqRow>>): seq<AqRow>
  {
    if registry == [] then []
    else
      var e := registry[|registry| - 1];
      var got := fetch(e.key, e.place);
      Successful(registry[..|registry| - 1], fetch) + (if got.Some? then got.value else [])
  }

  /** The fetch loop: `pd.concat` of each successful location's rows; errors are caught and skipped. */
  method FetchAirQuality(registry: seq<Entry>, fetch: (string, Location) -> Option<seq<AqRow>>)
    returns (frame: seq<AqRow>)
    ensures frame == Successful(registry, fetch)
  {
    frame := [];
    for n := 0 to |registry|
      invariant frame == Successful(registry[..n], fetch)
    {
      assert registry[..n + 1][..n] == registry[..n];
      var aqData := fetch(registry[n].key, registry[n].place);
      if aqData.None? {
        continue;
      }
      frame := frame + aqData.value;
    }
    assert registry[..|registry|] == registry;
  }

  /** The daily air-quality step: fetch, then add the lags in place. */
  method DailyAirQuality(registry: seq<Entry>, fetch: (string, Location) -> Option<seq<AqRow>>,
                         store: seq<AqRow>, today: Date)
    returns (rows: seq<AqRow>)
    ensures rows == DailyLagged(Successful(registry, fetch), Window(store, today))
  {
    var frame := FetchAirQuality(registry, fetch);
    var a := new AqRow[|frame|](i requires 0 <= i < |frame| => frame[i]);
    assert a[..] == frame;
    AddLaggedFeatures(a, store, today);
    rows := a[..];
  }

  // ---------------------------------------------------------------------------
  // The lookup

  /** The reference finds a value exactly when an observation exists, and then it is
      the pm25 of the first one. */
  lemma {:induction false} FirstMatchIsFirst(h: seq<AqRow>, id: string, d: Date)
    ensures FirstMatch(h, id, d).None? <==> forall k :: 0 <= k < |h| ==> !IsObservation(h[k], id, d)
    ensures FirstMatch(h, id, d).Some? ==>
              exists k :: && 0 <= k < |h| && IsObservation(h[k], id, d)
                          && FirstMatch(h, id, d).value == h[k].pm25
                          && forall k' :: 0 <= k' < k ==> !IsObservation(h[k'], id, d)
  {
    if h != [] {
      var p := h[..|h| - 1];
      FirstMatchIsFirst(p, id, d);
      assert forall k :: 0 <= k < |p| ==> h[k] == p[k];
      if FirstMatch(p, id, d).Some? {
        var k :| && 0 <= k < |p| && IsObservation(p[k], id, d)
                 && FirstMatch(p, id, d).value == p[k].pm25
                 && forall k' :: 0 <= k' < k ==> !IsObservation(p[k'], id, d);
        assert IsObservation(h[k], id, d);
      } else if IsObservation(h[|h| - 1], id, d) {
        assert forall k' :: 0 <= k' < |h| - 1 ==> !IsObservation(h[k'], id, d);
      }
    }
  }

  /** Sorting by date moves a row only past rows of other dates, so the rows of one
      date keep their order. */
  lemma {:induction false} OnDateInsert(t: seq<AqRow>, x: AqRow, d: Date)
    ensures OnDate(Insert(t, x, DateLe), d) == OnDate(t + [x], d)
  {
    if t != [] && !DateLe(t[|t| - 1], x) {
      var p := t[..|t| - 1];
      var last := t[|t| - 1];
      OnDateInsert(p, x, d);
      var q := Insert(p, x, DateLe);
      assert Insert(t, x, DateLe) == q + [last];
      assert t == p + [last];
      OnDateSnoc(q, last, d);
      OnDateSnoc(p, x, d);
      OnDateSnoc(p, last, d);
      OnDateSnoc(t, x, d);
      // `last` is dated after `x`, so at most one of them is on day `d`
    } else {
      OnDateSnoc(t, x, d);
    }
  }

  /** The rows of one date are the same before and after the (stable) sort by date,
      so `iloc[0]` picks the first such row in stored order. */
  lemma {:induction false} OnDateSortBy(h: seq<AqRow>, d: Date)
    ensures OnDate(SortBy(h, DateLe), d) == OnDate(h, d)
  {
    if h != [] {
      var p := h[..|h| - 1];
      var x := h[|h| - 1];
      OnDateSortBy(p, d);
      OnDateInsert(SortBy(p, DateLe), x, d);
      var sp := SortBy(p, DateLe);
      assert (sp + [x])[..|sp|] == sp;
    }
  }

  /** Appending a row appends it to the rows of its date. */
  lemma OnDateSnoc(g: seq<AqRow>, x: AqRow, d: Date)
    ensures OnDate(g + [x], d) == OnDate(g, d) + (if x.date == d then [x] else [])
  {
    assert (g + [x])[..|g|] == g;
  }

  /** Selecting the location and then the date finds the same first row as the reference. */
  lemma {:induction false} HeadOfMatches(h: seq<AqRow>, id: string, d: Date)
    ensures var m := OnDate(ForLocation(h, id), d);
            FirstMatch(h, id, d) == if m == [] then None else Some(m[0].pm25)
  {
    if h != [] {
      var p := h[..|h| - 1];
      var x := h[|h| - 1];
      HeadOfMatches(p, id, d);
      var g := ForLocation(p, id);
      var m := OnDate(g, d);
      var e: seq<AqRow> := if IsObservation(x, id, d) then [x] else [];
      assert OnDate(ForLocation(h, id), d) == m + e by {
        if x.id == id {
          assert ForLocation(h, id) == g + [x];
          OnDateSnoc(g, x, d);
        } else {
          assert ForLocation(h, id) == g;
        }
      }
      assert FirstMatch(h, id, d) == if FirstMatch(p, id, d).Some? then FirstMatch(p, id, d)
                                     else if IsObservation(x, id, d) then Some(x.pm25) else None;
      if m != [] {
        assert (m + e)[0] == m[0];
      }
    }
  }

  /** The lookup of add_lagged_features is the reference lookup: sorting the history
      by date changes nothing about which value is found. */
  lemma LookupLagIsFirstMatch(history: seq<AqRow>, id: string, d: Date)
    ensures LookupLag(history, id, d) == FirstMatch(history, id, d)
  {
    OnDateSortBy(ForLocation(history, id), d);
    HeadOfMatches(history, id, d);
  }

  /** One step of the row loop: what `lag_data.iloc[0]['pm25']` gives, or None when
      `lag_data` is empty, is the reference lookup. */
  lemma LagLookupStep(history: seq<AqRow>, id: string, d: Date, locationHistory: seq<AqRow>, lagData: seq<AqRow>)
    requires locationHistory == SortBy(ForLocation(history, id), DateLe)
    requires lagData == OnDate(locationHistory, d)
    ensures (if lagData != [] then Some(lagData[0].pm25) else None) == FirstMatch(history, id, d)
  {
    LookupLagIsFirstMatch(history, id, d);
  }


  /** Reading only the window hides exactly the observations before `today - 4`. */
  lemma {:induction false} FirstMatchInWindow(store: seq<AqRow>, today: Date, id: string, d: Date)
    ensures FirstMatch(Window(store, today), id, d)
            == if d >= today - LagWindowDays then FirstMatch(store, id, d) else None
  {
    if store != [] {
      var p := store[..|store| - 1];
      var x := store[|store| - 1];
      FirstMatchInWindow(p, today, id, d);
      var w := Window(p, today);
      assert FirstMatch(store, id, d) == if FirstMatch(p, id, d).Some? then FirstMatch(p, id, d)
                                         else if IsObservation(x, id, d) then Some(x.pm25) else None;
      if x.date >= today - LagWindowDays {
        assert Window(store, today) == w + [x];
        assert (w + [x])[..|w|] == w;
        assert FirstMatch(w + [x], id, d) == if FirstMatch(w, id, d).Some? then FirstMatch(w, id, d)
                                             else if IsObservation(x, id, d) then Some(x.pm25) else None;
      } else {
        assert Window(store, today) == w;
        assert !IsObservation(x, id, d) || d < today - LagWindowDays;
      }
    }
  }

  /** The daily lag engine, stated against the stored history: `lagged_k` of row i is
      the pm25 of the first stored observation of the same location exactly k days
      before the row's date, provided that day is inside the window; otherwise it is missing. */
  lemma DailyLagMeaning(frame: seq<AqRow>, store: seq<AqRow>, today: Date, i: int, k: int)
    requires 0 <= i < |frame| && 1 <= k <= 3
    ensures Lag(DailyLagged(frame, Window(store, today))[i], k)
            == if frame[i].date - k >= today - LagWindowDays then FirstMatch(store, frame[i].id, frame[i].date - k) else None
  {
    FirstMatchInWindow(store, today, frame[i].id, frame[i].date - k);
  }

  /** For a row dated no earlier than yesterday, the four-day window is wide enough:
      its lags are those a lookup in the whole store would give. */
  lemma RecentRowSeesAllLags(r: AqRow, store: seq<AqRow>, today: Date)
    requires r.date >= today - 1
    ensures DailyRow(r, Window(store, today)) == DailyRow(r, store)
  {
    FirstMatchInWindow(store, today, r.id, r.date - 1);
    FirstMatchInWindow(store, today, r.id, r.date - 2);
    FirstMatchInWindow(store, today, r.id, r.date - 3);
  }

  /** A lag day before the window is never found, even when the store has it: a row
      dated two days ago loses its `lagged_3`. */
  lemma OldRowLosesLag3(store: seq<AqRow>, today: Date)
    ensures var r := AqRow("X", today - 2, 0.0, None, None, None);
            var old3 := AqRow("X", today - 5, 7.0, None, None, None);
            && FirstMatch(store + [old3], "X", today - 5).Some?
            && DailyRow(r, Window(store + [old3], today)).lagged3 == None
  {
    var old3 := AqRow("X", today - 5, 7.0, None, None, None);
    FirstMatchIsFirst(store + [old3], "X", today - 5);
    assert IsObservation((store + [old3])[|store|], "X", today - 5);
    FirstMatchInWindow(store + [old3], today, "X", today - 5);
  }

  /** Concatenating the registry's parts concatenates their successful rows. */
  lemma {:induction false} SuccessfulAppend(a: seq<Entry>, b: seq<Entry>, fetch: (string, Location) -> Option<seq<AqRow>>)
    ensures Successful(a + b, fetch) == Successful(a, fetch) + Successful(b, fetch)
  {
    if b == [] {
      assert a + b == a;
    } else {
      var c := b[..|b| - 1];
      assert (a + b)[..|a + b| - 1] == a + c;
      SuccessfulAppend(a, c, fetch);
    }
  }

  /** A location whose fetch fails is skipped: the result is what the registry
      without it gives. */
  lemma FailedLocationSkipped(registry: seq<Entry>, fetch: (string, Location) -> Option<seq<AqRow>>, k: int)
    requires 0 <= k < |registry|
    requires fetch(registry[k].key, registry[k].place).None?
    ensures Successful(registry, fetch) == Successful(registry[..k] + registry[k + 1..], fetch)
  {
    var a := registry[..k];
    var b := registry[k + 1..];
    assert registry == (a + [registry[k]]) + b;
    SuccessfulAppend(a + [registry[k]], b, fetch);
    assert (a + [registry[k]])[..k] == a;
    SuccessfulAppend(a, b, fetch);
  }


  /** A location whose fetch succeeds contributes all its rows, in order, right after
      the rows of the locations before it. */
  lemma FetchedLocationIncluded(registry: seq<Entry>, fetch: (string, Location) -> Option<seq<AqRow>>, k: int)
    requires 0 <= k < |registry|
    requires fetch(registry[k].key, registry[k].place).Some?
    ensures var rows := fetch(registry[k].key, registry[k].place).value;
            var before := |Successful(registry[..k], fetch)|;
            && before + |rows| <= |Successful(registry, fetch)|
            && Successful(registry, fetch)[before..before + |rows|] == rows
  {
    var a := registry[..k];
    var b := registry[k + 1..];
    assert registry == (a + [registry[k]]) + b;
    SuccessfulAppend(a + [registry[k]], b, fetch);
    assert (a + [registry[k]])[..k] == a;
  }

}
