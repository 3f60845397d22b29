/** backfill.py: each location's air-quality CSV is normalised to the columns
    `date`, `pm25` and `id`, and the tables of all locations are concatenated in
    registry order, without lag columns. The CSV loop is shared with
    backfill-feature-pipeline.py, which reads from another directory. */
module Backfill {
  import opened Tables

  /** A row of a location's CSV as `pd.read_csv` gives it: `date` and `median`
      (either may be missing) and every other column, which normalisation drops. */
  datatype RawAqRow = RawAqRow(date: Option<Date>, median: Option<real>, others: seq<Option<real>>)

  /** A CSV row that survives `dropna` once only `date` and `pm25` are left. */
  predicate Measured(x: RawAqRow)
  {
    x.date.Some? && x.median.Some?
  }

  /** Reference count: the rows of `df` that have both a date and a median. */
  function CountMeasured(df: seq<RawAqRow>): nat
  {
    if df == [] then 0
    else CountMeasured(df[..|df| - 1]) + (if Measured(df[|df| - 1]) then 1 else 0)
  }

  /** The normalised row of a measured CSV row: `median` becomes `pm25`, the id is the place's. */
  function Normalised(x: RawAqRow, place: Location): AqRow
    requires Measured(x)
  {
    AqRow(place.id, x.date.value, x.median.value, None, None, None)
  }

  /** process_air_quality: rename `median` to `pm25`, keep only `date` and `pm25`,
      drop the rows with a missing value, then stamp `place.id` on every row. */
  function ProcessAirQuality(df: seq<RawAqRow>, place: Location): (r: seq<AqRow>)
    ensures |r| == CountMeasured(df)
    ensures forall k :: 0 <= k < |r| ==> r[k].id == place.id
    ensures forall k :: 0 <= k < |r| ==> r[k].lagged1 == None && r[k].lagged2 == None && r[k].lagged3 == None
  {
    if df == [] then []
    else
      var x := df[|df| - 1];
      ProcessAirQuality(df[..|df| - 1], place) + (if Measured(x) then [Normalised(x, place)] else [])
  }

  /** Every normalised row comes from a CSV row: its `date` is that row's date and its
      `pm25` that row's median. */
  lemma {:induction false} ProcessAirQualityFromCsv(df: seq<RawAqRow>, place: Location)
    ensures forall k :: 0 <= k < |ProcessAirQuality(df, place)| ==>
              exists j :: 0 <= j < |df| && df[j].date == Some(ProcessAirQuality(df, place)[k].date)
                                        && df[j].median == Some(ProcessAirQuality(df, place)[k].pm25)
  {
    if df != [] {
      var p := df[..|df| - 1];
      var x := df[|df| - 1];
      var r := ProcessAirQuality(df, place);
      var front := ProcessAirQuality(p, place);
      assert r == front + (if Measured(x) then [Normalised(x, place)] else []);
      ProcessAirQualityFromCsv(p, place);
      forall k | 0 <= k < |r|
        ensures exists j :: 0 <= j < |df| && df[j].date == Some(r[k].date) && df[j].median == Some(r[k].pm25)
      {
        if k < |front| {
          var j :| 0 <= j < |p| && p[j].date == Some(front[k].date) && p[j].median == Some(front[k].pm25);
          assert df[j] == p[j] && r[k] == front[k];
        } else {
          assert r[k] == Normalised(x, place);
          assert df[|df| - 1].date == Some(r[k].date) && df[|df| - 1].median == Some(r[k].pm25);
        }
      }
    } else {
      assert ProcessAirQuality(df, place) == [];
    }
  }

  /** Every measured CSV row survives normalisation: `dropna` removes only rows missing `date` or `median`. */
  lemma {:induction false} ProcessAirQualityKeepsMeasured(df: seq<RawAqRow>, place: Location, j: int)
    requires 0 <= j < |df| && Measured(df[j])
    ensures Normalised(df[j], place) in ProcessAirQuality(df, place)
  {
    var p := df[..|df| - 1];
    if j < |df| - 1 {
      assert df[j] == p[j];
      ProcessAirQualityKeepsMeasured(p, place, j);
    }
  }

  /** Only `date` and `median` decide what survives: the dropped columns and the id,
      which is stamped after `dropna`, never cause a row to be removed. */
  lemma {:induction false} ProcessAirQualityIgnoresOtherColumns(df1: seq<RawAqRow>, df2: seq<RawAqRow>, place: Location)
    requires |df1| == |df2|
    requires forall j :: 0 <= j < |df1| ==> df1[j].date == df2[j].date && df1[j].median == df2[j].median
    ensures ProcessAirQuality(df1, place) == ProcessAirQuality(df2, place)
  {
    if df1 != [] {
      ProcessAirQualityIgnoresOtherColumns(df1[..|df1| - 1], df2[..|df2| - 1], place);
    }
  }

  /** Normalisation works row by row and keeps the CSV's order. */
  lemma {:induction false} ProcessAirQualityAppend(a: seq<RawAqRow>, b: seq<RawAqRow>, place: Location)
    ensures ProcessAirQuality(a + b, place) == ProcessAirQuality(a, place) + ProcessAirQuality(b, place)
  {
    if b == [] {
      assert a + b == a;
    } else {
      var c := b[..|b| - 1];
      assert (a + b)[..|a + b| - 1] == a + c;
      ProcessAirQualityAppend(a, c, place);
    }
  }

  /** Directory of the CSV files read by backfill.py. */
  const AirQualityDir: string := "data/air-quality/"

  /** `Path(f"{dir}{key}.csv")`. */
  function CsvPath(dir: string, key: string): string
  {
    dir + key + ".csv"
  }

  /** Distinct location keys name distinct files. */
  lemma CsvPathInjective(dir: string, a: string, b: string)
    requires CsvPath(dir, a) == CsvPath(dir, b)
    ensures a == b
  {
    assert |a| == |b|;
    assert a == CsvPath(dir, a)[|dir|..|dir| + |a|];
    assert b == CsvPath(dir, b)[|dir|..|dir| + |b|];
  }

  predicate AllFilesPresent(registry: seq<Entry>, files: map<string, seq<RawAqRow>>, dir: string)
  {
    forall k :: 0 <= k < |registry| ==> CsvPath(dir, registry[k].key) in files
  }

  /** Location `k` is the first, in registry order, whose file is missing. */
  predicate FirstMissing(registry: seq<Entry>, files: map<string, seq<RawAqRow>>, dir: string, k: int)
  {
    && 0 <= k < |registry|
    && CsvPath(dir, registry[k].key) !in files
    && forall j :: 0 <= j < k ==> CsvPath(dir, registry[j].key) in files
  }

  /** The list `dfs`: each location's normalised table, in registry order. */
  function ProcessedTables(registry: seq<Entry>, files: map<string, seq<RawAqRow>>, dir: string): (dfs: seq<seq<AqRow>>)
    requires AllFilesPresent(registry, files, dir)
    ensures |dfs| == |registry|
  {
    if registry == [] then []
    else
      var e := registry[|registry| - 1];
      ProcessedTables(registry[..|registry| - 1], files, dir) + [ProcessAirQuality(files[CsvPath(dir, e.key)], e.place)]
  }

  /** The loop of load_air_quality_data: read and normalise each location's file,
      raising `FileNotFoundError` at the first location whose file is missing. */
  method ReadLocations(registry: seq<Entry>, files: map<string, seq<RawAqRow>>, dir: string)
    returns (r: Result<seq<seq<AqRow>>>)
    ensures r.Success? <==> AllFilesPresent(registry, files, dir)
    ensures r.Success? ==> r.value == ProcessedTables(registry, files, dir)
    ensures r.Failure? ==>
              exists k :: FirstMissing(registry, files, dir, k) && r.error == FileNotFound(CsvPath(dir, registry[k].key))
  {
    var dfs: seq<seq<AqRow>> := [];
    for n := 0 to |registry|
      invariant AllFilesPresent(registry[..n], files, dir)
      invariant dfs == ProcessedTables(registry[..n], files, dir)
    {
      var path := CsvPath(dir, registry[n].key);
      if path !in files {
        assert FirstMissing(registry, files, dir, n);
        return Failure(FileNotFound(path));
      }
      assert registry[..n + 1][..n] == registry[..n];
      dfs := dfs + [ProcessAirQuality(files[path], registry[n].place)];
    }
    assert registry[..|registry|] == registry;
    return Success(dfs);
  }

  /** `pd.concat(dfs, ignore_index=True)`, which raises on an empty list. */
  function Concat(dfs: seq<seq<AqRow>>): (r: Result<seq<AqRow>>)
    ensures r.Failure? <==> dfs == []
  {
    if dfs == [] then Failure(NoObjectsToConcatenate) else Success(Flatten(dfs))
  }

  /** load_air_quality_data of backfill.py: the concatenation of every location's
      normalised table in registry order; fails on the first missing file, or when
      the registry is empty. */
  method LoadAirQualityData(registry: seq<Entry>, files: map<string, seq<RawAqRow>>)
    returns (r: Result<seq<AqRow>>)
    ensures r.Success? <==> |registry| > 0 && AllFilesPresent(registry, files, AirQualityDir)
    ensures r.Success? ==> r.value == Flatten(ProcessedTables(registry, files, AirQualityDir))
    ensures !AllFilesPresent(registry, files, AirQualityDir) ==>
              exists k :: FirstMissing(registry, files, AirQualityDir, k)
                       && r == Failure(FileNotFound(CsvPath(AirQualityDir, registry[k].key)))
    ensures registry == [] ==> r == Failure(NoObjectsToConcatenate)
    ensures r.Success? ==> forall k :: 0 <= k < |r.value| ==>
              r.value[k].lagged1 == None && r.value[k].lagged2 == None && r.value[k].lagged3 == None
  {
    var dfs := ReadLocations(registry, files, AirQualityDir);
    if dfs.Failure? {
      return Failure(dfs.error);
    }
    r := Concat(dfs.value);
    if r.Success? {
      NoLagColumns(registry, files, AirQualityDir);
    }
  }

  /** A table read by the CSV loop carries no lag values. */
  lemma {:induction false} NoLagColumns(registry: seq<Entry>, files: map<string, seq<RawAqRow>>, dir: string)
    requires AllFilesPresent(registry, files, dir)
    ensures forall r :: r in Flatten(ProcessedTables(registry, files, dir)) ==>
              r.lagged1 == None && r.lagged2 == None && r.lagged3 == None
  {
    if registry != [] {
      var pre := registry[..|registry| - 1];
      NoLagColumns(pre, files, dir);
    }
  }

  /** The id of every registry entry's place, in registry order. */
  function PlaceIds(registry: seq<Entry>): (ids: seq<string>)
    ensures |ids| == |registry|
    ensures forall k :: 0 <= k < |registry| ==> ids[k] == registry[k].place.id
  {
    seq(|registry|, k requires 0 <= k < |registry| => registry[k].place.id)
  }

  /** Table `k` of the list is the normalised file of registry entry `k`. */
  lemma {:induction false} ProcessedTablesAt(registry: seq<Entry>, files: map<string, seq<RawAqRow>>, dir: string, k: int)
    requires AllFilesPresent(registry, files, dir)
    requires 0 <= k < |registry|
    ensures CsvPath(dir, registry[k].key) in files
    ensures ProcessedTables(registry, files, dir)[k] == ProcessAirQuality(files[CsvPath(dir, registry[k].key)], registry[k].place)
  {
    var n := |registry| - 1;
    if k < n {
      var pre := registry[..n];
      assert pre[k] == registry[k];
      assert AllFilesPresent(pre, files, dir) by {
        forall i | 0 <= i < n ensures CsvPath(dir, pre[i].key) in files {
          assert pre[i] == registry[i];
        }
      }
      ProcessedTablesAt(pre, files, dir, k);
    }
  }

  /** Each normalised table holds only rows of its entry's place. */
  lemma ProcessedTablesOwned(registry: seq<Entry>, files: map<string, seq<RawAqRow>>, dir: string)
    requires AllFilesPresent(registry, files, dir)
    ensures OwnedBy(ProcessedTables(registry, files, dir), PlaceIds(registry))
  {
    var ts: seq<seq<AqRow>> := ProcessedTables(registry, files, dir);
    forall i: int, j: int | 0 <= i < |ts| && 0 <= j < |ts[i]| ensures ts[i][j].id == PlaceIds(registry)[i] {
      ProcessedTablesAt(registry, files, dir, i);
    }
  }

  /** A place that no registry entry names has no rows in the concatenation. */
  lemma NoRowsOfUnlistedPlace(registry: seq<Entry>, files: map<string, seq<RawAqRow>>, dir: string, id: string)
    requires AllFilesPresent(registry, files, dir)
    requires forall k :: 0 <= k < |registry| ==> registry[k].place.id != id
    ensures ForLocation(Flatten(ProcessedTables(registry, files, dir)), id) == []
  {
    ProcessedTablesOwned(registry, files, dir);
    FlattenForAbsent(ProcessedTables(registry, files, dir), PlaceIds(registry), id);
  }

  /** With distinct place ids, the rows of place `k` in the concatenation are exactly
      its own normalised table: rows are never attributed to another place. */
  lemma LoadedRowsOfPlace(registry: seq<Entry>, files: map<string, seq<RawAqRow>>, dir: string, k: int)
    requires AllFilesPresent(registry, files, dir)
    requires forall i, j :: 0 <= i < j < |registry| ==> registry[i].place.id != registry[j].place.id
    requires 0 <= k < |registry|
    ensures ForLocation(Flatten(ProcessedTables(registry, files, dir)), registry[k].place.id)
            == ProcessAirQuality(files[CsvPath(dir, registry[k].key)], registry[k].place)
  {
    ProcessedTablesOwned(registry, files, dir);
    ProcessedTablesAt(registry, files, dir, k);
    FlattenForOwner(ProcessedTables(registry, files, dir), PlaceIds(registry), k);
  }
}
