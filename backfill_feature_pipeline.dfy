/** backfill-feature-pipeline.py: the batch lag engine. The combined table is
    sorted by (id, date); within each location, `lagged_k` is the pm25 value k
    ROWS earlier (pandas' `shift(k)`), whether or not those rows are k calendar
    days earlier; then every row missing a lag is dropped. */
module BackfillLags {
  import opened Sorting
  import opened Tables
  import Backfill

  /** The order of `sort_values(['id', 'date'])`. */
  predicate RowLe(a: AqRow, b: AqRow)
  {
    if a.id != b.id then StrLe(a.id, b.id) else a.date <= b.date
  }

  lemma RowLeTotalPreorder()
    ensures TotalPreorder(RowLe)
  {
    forall a: AqRow, b: AqRow ensures RowLe(a, b) || RowLe(b, a) {
      StrLeTotal(a.id, b.id);
    }
    forall a: AqRow, b: AqRow, c: AqRow | RowLe(a, b) && RowLe(b, c) ensures RowLe(a, c) {
      if a.id != b.id && b.id != c.id {
        StrLeTransitive(a.id, b.id, c.id);
        if a.id == c.id {
          StrLeAntisymmetric(a.id, b.id);
          assert false;
        }
      }
    }
  }

  /** `df.sort_values(['id', 'date'])`: a reordering of the table. */
  function SortByIdDate(df: seq<AqRow>): (s: seq<AqRow>)
    ensures multiset(s) == multiset(df)
  {
    SortBy(df, RowLe)
  }

  /** The reordered table is sorted by (id, date). */
  lemma SortByIdDateSorted(df: seq<AqRow>)
    ensures SortedBy(SortByIdDate(df), RowLe)
  {
    RowLeTotalPreorder();
    SortBySorted(df, RowLe);
  }

  /** `df['id'].unique()`: each id of the table once, in order of first appearance. */
  function UniqueIds(s: seq<AqRow>): (ids: seq<string>)
    ensures forall i :: 0 <= i < |s| ==> s[i].id in ids
    ensures forall i, j :: 0 <= i < j < |ids| ==> ids[i] != ids[j]
  {
    if s == [] then []
    else
      var p := s[..|s| - 1];
      assert s == p + [s[|s| - 1]];
      var u := UniqueIds(p);
      if s[|s| - 1].id in u then u else u + [s[|s| - 1].id]
  }

  /** The position of the first row of `id` in `s`, or `|s|` when there is none. */
  function FirstIndex(s: seq<AqRow>, id: string): (i: nat)
    ensures i <= |s|
    ensures i < |s| ==> s[i].id == id
    ensures forall j :: 0 <= j < i ==> s[j].id != id
  {
    if s == [] then 0
    else
      var f := FirstIndex(s[..|s| - 1], id);
      if f < |s| - 1 || s[|s| - 1].id == id then f else |s|
  }

  /** `unique()` lists only ids of the table, in order of first appearance. */
  lemma {:induction false} UniqueIdsFirstAppearance(s: seq<AqRow>)
    ensures forall m :: 0 <= m < |UniqueIds(s)| ==> FirstIndex(s, UniqueIds(s)[m]) < |s|
    ensures forall m, n :: 0 <= m < n < |UniqueIds(s)| ==>
              FirstIndex(s, UniqueIds(s)[m]) < FirstIndex(s, UniqueIds(s)[n])
  {
    if s == [] {
      assert UniqueIds(s) == [];
    } else {
      var p := s[..|s| - 1];
      var x := s[|s| - 1];
      assert s == p + [x];
      UniqueIdsFirstAppearance(p);
      var u := UniqueIds(p);
      var ids := UniqueIds(s);
      assert ids == if x.id in u then u else u + [x.id];
      forall m | 0 <= m < |u| ensures FirstIndex(s, u[m]) == FirstIndex(p, u[m]) {
      }
      if x.id !in u {
        assert FirstIndex(s, x.id) == |p|;
      }
    }
  }

  /** The pm25 value of the row `k` places before the end of `prior`, if there is one. */
  function Back(prior: seq<AqRow>, k: int): Option<real>
  {
    if 1 <= k <= |prior| then Some(prior[|prior| - k].pm25) else None
  }

  /** pandas' `Series.shift(k)` read at position `c` of `v`. */
  function ShiftAt(v: seq<real>, c: int, k: int): Option<real>
    requires 0 <= c < |v|
  {
    if 1 <= k <= c then Some(v[c - k]) else None
  }

  /** The rows of ONE location with `lagged_k = pm25.shift(k)` written into them:
      the lag of the row at position j is the pm25 of the row at position j - k. */
  function GroupShift(g: seq<AqRow>): (h: seq<AqRow>)
    ensures |h| == |g|
    ensures forall j {:trigger h[j]} :: 0 <= j < |g| ==> SameObservation(h[j], g[j])
    ensures forall j :: 0 <= j < |g| ==> h[j].lagged1 == if j >= 1 then Some(g[j - 1].pm25) else None
    ensures forall j :: 0 <= j < |g| ==> h[j].lagged2 == if j >= 2 then Some(g[j - 2].pm25) else None
    ensures forall j :: 0 <= j < |g| ==> h[j].lagged3 == if j >= 3 then Some(g[j - 3].pm25) else None
  {
    var v := Pm25s(g);
    seq(|g|, j requires 0 <= j < |g| =>
      g[j].(lagged1 := ShiftAt(v, j, 1), lagged2 := ShiftAt(v, j, 2), lagged3 := ShiftAt(v, j, 3)))
  }

  /** A row whose lag columns are read from `prior`, the rows of its location before it. */
  function WithPositionalLags(r: AqRow, prior: seq<AqRow>): AqRow
  {
    r.(lagged1 := Back(prior, 1), lagged2 := Back(prior, 2), lagged3 := Back(prior, 3))
  }

  /** The whole table `s` with the lag columns of add_lagged_features: each row looks
      back along the rows of its own location, in the order `s` holds them. */
  function Shifted(s: seq<AqRow>): (t: seq<AqRow>)
    ensures |t| == |s|
    ensures forall i :: 0 <= i < |s| ==> SameObservation(t[i], s[i])
  {
    if s == [] then []
    else
      var p := s[..|s| - 1];
      var x := s[|s| - 1];
      Shifted(p) + [WithPositionalLags(x, ForLocation(p, x.id))]
  }

  /** What add_lagged_features returns for the table `df`. */
  function BackfillLagged(df: seq<AqRow>): seq<AqRow>
  {
    Shifted(SortByIdDate(df))
  }

  lemma {:induction false} ShiftedAt(s: seq<AqRow>, i: int)
    requires 0 <= i < |s|
    ensures Shifted(s)[i] == WithPositionalLags(s[i], ForLocation(s[..i], s[i].id))
  {
    var p := s[..|s| - 1];
    if i < |p| {
      ShiftedAt(p, i);
      assert p[..i] == s[..i];
    }
  }

  /** At row `i`, the location's whole pm25 series shifted by `k` and read at the
      row's position among its location's rows is the value `k` rows back. */
  lemma ShiftAtRow(s: seq<AqRow>, i: int)
    requires 0 <= i < |s|
    ensures |ForLocation(s[..i], s[i].id)| < |ForLocation(s, s[i].id)|
    ensures forall k :: 1 <= k <= 3 ==>
              ShiftAt(Pm25s(ForLocation(s, s[i].id)), |ForLocation(s[..i], s[i].id)|, k)
              == Back(ForLocation(s[..i], s[i].id), k)
  {
    var id := s[i].id;
    var a := ForLocation(s[..i], id);
    assert s[..i + 1][..i] == s[..i];
    assert ForLocation(s[..i + 1], id) == a + [s[i]];
    assert s == s[..i + 1] + s[i + 1..];
    ForLocationAppend(s[..i + 1], s[i + 1..], id);
    var g := ForLocation(s, id);
    assert g == a + [s[i]] + ForLocation(s[i + 1..], id);
    forall m | 0 <= m < |a| ensures Pm25s(g)[m] == a[m].pm25 {
      assert g[m] == a[m];
    }
  }

  /** The row `i` of the shifted table, as the loop writes it: the location's pm25
      series shifted by k, read at the row's position among its location's rows. */
  lemma ShiftedRow(s: seq<AqRow>, i: int, v: seq<real>, c: int)
    requires 0 <= i < |s|
    requires v == Pm25s(ForLocation(s, s[i].id)) && c == |ForLocation(s[..i], s[i].id)|
    ensures 0 <= c < |v|
    ensures Shifted(s)[i] == s[i].(lagged1 := ShiftAt(v, c, 1), lagged2 := ShiftAt(v, c, 2), lagged3 := ShiftAt(v, c, 3))
  {
    ShiftAtRow(s, i);
    ShiftedAt(s, i);
  }


  /** `df.loc[mask, 'lagged_k'] = location_data['pm25'].shift(k)` for k = 1, 2, 3: the
      rows of location `id` receive their shifted values, every other row is left as it is. */
  method WriteLocationLags(sorted: seq<AqRow>, t: seq<AqRow>, id: string) returns (out: seq<AqRow>)
    requires |t| == |sorted|
    ensures |out| == |sorted|
    ensures forall j :: 0 <= j < |sorted| ==> out[j] == if sorted[j].id == id then Shifted(sorted)[j] else t[j]
  {
    out := t;
    var history := Pm25s(ForLocation(sorted, id));
    var c := 0;
    ghost var target := Shifted(sorted);
    for i := 0 to |sorted|
      invariant |out| == |sorted|
      invariant c == |ForLocation(sorted[..i], id)|
      invariant forall j :: 0 <= j < |sorted| ==> out[j] == if j < i && sorted[j].id == id then target[j] else t[j]
    {
      if sorted[i].id == id {
        ForLocationPrefix(sorted, i, id);
        ShiftedRow(sorted, i, history, c);
        out := out[i := sorted[i].(lagged1 := ShiftAt(history, c, 1),
                                   lagged2 := ShiftAt(history, c, 2),
                                   lagged3 := ShiftAt(history, c, 3))];
        c := c + 1;
      } else {
        ForLocationPrefix(sorted, i, id);
      }
    }
  }


  /** The loop of add_lagged_features over `df['id'].unique()`: each location in order
      of first appearance gets its shifted pm25 series written into its lag columns. */
  method ShiftLocations(sorted: seq<AqRow>) returns (out: seq<AqRow>)
    ensures out == Shifted(sorted)
  {
    out := sorted;
    var ids := UniqueIds(sorted);
    ghost var done: set<string> := {};
    for n := 0 to |ids|
      invariant |out| == |sorted|
      invariant forall m :: 0 <= m < n ==> ids[m] in done
      invariant forall i :: 0 <= i < |sorted| ==>
                  out[i] == if sorted[i].id in done then Shifted(sorted)[i] else sorted[i]
    {
      out := WriteLocationLags(sorted, out, ids[n]);
      done := done + {ids[n]};
    }
    forall i | 0 <= i < |sorted| ensures out[i] == Shifted(sorted)[i] {
      assert sorted[i].id in ids;
      var m :| 0 <= m < |ids| && ids[m] == sorted[i].id;
      assert ids[m] in done;
    }
  }

  /** add_lagged_features: sort by (id, date), then shift each location's rows. The lag
      columns exist only once the loop has written them for some location, so on a table
      without rows the float32 conversion reads a missing column `lagged_1` and raises. */
  method AddLaggedFeatures(df: seq<AqRow>) returns (r: Result<seq<AqRow>>)
    ensures r.Success? <==> |df| > 0
    ensures r.Success? ==> r.value == BackfillLagged(df)
    ensures r.Failure? ==> r.error == MissingColumn("lagged_1")
  {
    var sorted := SortByIdDate(df);
    assert |sorted| == |multiset(sorted)| == |multiset(df)| == |df|;
    var out := ShiftLocations(sorted);
    if |UniqueIds(sorted)| == 0 {
      return Failure(MissingColumn("lagged_1"));
    }
    r := Success(out);
  }


  /** add_lagged_features only adds columns to the sorted table: the same number of rows,
      each with the observation of the sorted table at its position, still sorted by (id, date). */
  lemma BackfillLaggedKeepsObservations(df: seq<AqRow>)
    ensures |BackfillLagged(df)| == |df|
    ensures forall i :: 0 <= i < |df| ==> SameObservation(BackfillLagged(df)[i], SortByIdDate(df)[i])
    ensures SortedBy(BackfillLagged(df), RowLe)
  {
    var sorted := SortByIdDate(df);
    var out := BackfillLagged(df);
    SortByIdDateSorted(df);
    forall a, b | 0 <= a < b < |out| ensures RowLe(out[a], out[b]) {
      assert RowLe(sorted[a], sorted[b]);
    }
  }

  /** `dropna(subset=['lagged_1', 'lagged_2', 'lagged_3'])`. */
  function DropIncompleteLags(s: seq<AqRow>): (t: seq<AqRow>)
    ensures |t| <= |s|
    ensures forall k :: 0 <= k < |t| ==> HasAllLags(t[k])
  {
    if s == [] then []
    else DropIncompleteLags(s[..|s| - 1]) + (if HasAllLags(s[|s| - 1]) then [s[|s| - 1]] else [])
  }

  /** The filter keeps exactly the complete rows. */
  lemma {:induction false} DropIncompleteMembers(s: seq<AqRow>)
    ensures forall r :: r in DropIncompleteLags(s) <==> r in s && HasAllLags(r)
  {
    if s != [] {
      var p := s[..|s| - 1];
      assert s == p + [s[|s| - 1]];
      DropIncompleteMembers(p);
    }
  }

  /** Directory of the CSV files read by backfill-feature-pipeline.py. */
  const FeatureDataDir: string := "data/"

  /** load_air_quality_data of backfill-feature-pipeline.py: read and normalise every
      location's CSV, concatenate, add the positional lags and keep only complete rows. */
  method LoadAirQualityData(registry: seq<Entry>, files: map<string, seq<Backfill.RawAqRow>>)
    returns (r: Result<seq<AqRow>>)
    ensures r.Success? <==> && |registry| > 0 && Backfill.AllFilesPresent(registry, files, FeatureDataDir)
                            && |Flatten(Backfill.ProcessedTables(registry, files, FeatureDataDir))| > 0
    ensures && |registry| > 0 && Backfill.AllFilesPresent(registry, files, FeatureDataDir)
            && Flatten(Backfill.ProcessedTables(registry, files, FeatureDataDir)) == [] ==>
              r == Failure(MissingColumn("lagged_1"))
    ensures r.Success? ==>
              r.value == DropIncompleteLags(BackfillLagged(Flatten(Backfill.ProcessedTables(registry, files, FeatureDataDir))))
    ensures !Backfill.AllFilesPresent(registry, files, FeatureDataDir) ==>
              exists k :: Backfill.FirstMissing(registry, files, FeatureDataDir, k)
                       && r == Failure(FileNotFound(Backfill.CsvPath(FeatureDataDir, registry[k].key)))
    ensures registry == [] ==> r == Failure(NoObjectsToConcatenate)
    ensures r.Success? ==> forall k :: 0 <= k < |r.value| ==> HasAllLags(r.value[k])
  {
    var dfs := Backfill.ReadLocations(registry, files, FeatureDataDir);
    if dfs.Failure? {
      return Failure(dfs.error);
    }
    var combined := Backfill.Concat(dfs.value);
    if combined.Failure? {
      return combined;
    }
    var lagged := AddLaggedFeatures(combined.value);
    if lagged.Failure? {
      return Failure(lagged.error);
    }
    r := Success(DropIncompleteLags(lagged.value));
  }

  /** A place whose CSV has no row with both a date and a median leaves an empty table
      behind, so load_air_quality_data reaches the missing `lagged_1` column and raises. */
  lemma UnmeasuredCsvEmptiesTable()
    ensures var registry := [Entry("a", Location("a", 0.0, 0.0, "c", "n"))];
            var files := map[Backfill.CsvPath(FeatureDataDir, "a") := [Backfill.RawAqRow(Some(1), None, [])]];
            && Backfill.AllFilesPresent(registry, files, FeatureDataDir)
            && Flatten(Backfill.ProcessedTables(registry, files, FeatureDataDir)) == []
  {
    var registry := [Entry("a", Location("a", 0.0, 0.0, "c", "n"))];
    var csv := [Backfill.RawAqRow(Some(1), None, [])];
    var files := map[Backfill.CsvPath(FeatureDataDir, "a") := csv];
    assert Backfill.AllFilesPresent(registry, files, FeatureDataDir);
    assert Backfill.CountMeasured(csv) == 0 by {
      assert csv[..0] == [];
    }
    var ts := Backfill.ProcessedTables(registry, files, FeatureDataDir);
    assert registry[..0] == [];
    assert ts == [Backfill.ProcessAirQuality(csv, registry[0].place)];
    assert ts[..0] == [];
  }

  lemma GroupShiftSnocAt(g: seq<AqRow>, x: AqRow, j: int)
    requires 0 <= j <= |g|
    ensures GroupShift(g + [x])[j] == (GroupShift(g) + [WithPositionalLags(x, g)])[j]
  {
    var gx := g + [x];
    var l := GroupShift(gx)[j];
    var r := (GroupShift(g) + [WithPositionalLags(x, g)])[j];
    assert gx[j] == if j < |g| then g[j] else x;
    assert forall m :: 0 <= m < |g| ==> gx[m] == g[m];
    assert SameObservation(l, r);
    assert l.lagged1 == r.lagged1;
    assert l.lagged2 == r.lagged2;
    assert l.lagged3 == r.lagged3;
    RowExtensionality(l, r);
  }

  /** Appending a row to a location's rows extends its shift by that row's positional lags. */
  lemma GroupShiftSnoc(g: seq<AqRow>, x: AqRow)
    ensures GroupShift(g + [x]) == GroupShift(g) + [WithPositionalLags(x, g)]
  {
    forall j | 0 <= j <= |g| ensures GroupShift(g + [x])[j] == (GroupShift(g) + [WithPositionalLags(x, g)])[j] {
      GroupShiftSnocAt(g, x, j);
    }
  }

  /** The core property of the batch engine: the rows of a location in the shifted
      table are exactly that location's rows shifted on their own. So a lag never
      comes from another location, and within the location `lagged_k` of the row at
      position j is the pm25 of the row at position j - k (none for the first k rows). */
  lemma {:induction false} ShiftedWithinLocation(s: seq<AqRow>, id: string)
    ensures ForLocation(Shifted(s), id) == GroupShift(ForLocation(s, id))
  {
    if s != [] {
      var p := s[..|s| - 1];
      var x := s[|s| - 1];
      ShiftedWithinLocation(p, id);
      var y := WithPositionalLags(x, ForLocation(p, x.id));
      assert Shifted(s) == Shifted(p) + [y];
      assert Shifted(s)[..|s| - 1] == Shifted(p);
      if x.id == id {
        GroupShiftSnoc(ForLocation(p, id), x);
      }
    }
  }

  /** The rows of a location in the (id, date)-sorted table are in date order. */
  lemma {:induction false} SortedLocationIsDateOrdered(s: seq<AqRow>, id: string)
    requires SortedBy(s, RowLe)
    ensures forall a, b :: 0 <= a < b < |ForLocation(s, id)| ==> ForLocation(s, id)[a].date <= ForLocation(s, id)[b].date
  {
    if s != [] {
      var p := s[..|s| - 1];
      var x := s[|s| - 1];
      assert s == p + [x];
      SortedLocationIsDateOrdered(p, id);
      var g := ForLocation(p, id);
      ForLocationMembers(p, id);
      forall a | 0 <= a < |g| ensures x.id == id ==> g[a].date <= x.date {
        assert g[a] in g;
        var m :| 0 <= m < |p| && p[m] == g[a];
        assert RowLe(s[m], s[|s| - 1]);
      }
    }
  }

  /** What add_lagged_features shifts is each location's rows in date order: a
      reordering of that location's rows in the input. */
  lemma LocationRowsInDateOrder(df: seq<AqRow>, id: string)
    ensures multiset(ForLocation(SortByIdDate(df), id)) == multiset(ForLocation(df, id))
    ensures forall a, b :: 0 <= a < b < |ForLocation(SortByIdDate(df), id)| ==>
              ForLocation(SortByIdDate(df), id)[a].date <= ForLocation(SortByIdDate(df), id)[b].date
  {
    ForLocationPermutation(SortByIdDate(df), df, id);
    SortByIdDateSorted(df);
    SortedLocationIsDateOrdered(SortByIdDate(df), id);
  }

  /** A location's rows lie on consecutive calendar days: each row is as many days
      after another as it stands places after it. */
  predicate ConsecutiveDays(g: seq<AqRow>)
  {
    forall a, b :: 0 <= a <= b < |g| ==> g[b].date == g[a].date + (b - a)
  }

  /** What the feature descriptions promise ("PM2.5 value from k days ago") holds when
      a location's rows lie on consecutive days: `lagged_k` of the row dated D is
      present exactly when a row dated D - k exists, and is that row's pm25. */
  lemma CalendarLagsWhenConsecutive(g: seq<AqRow>, j: int, k: int)
    requires ConsecutiveDays(g)
    requires 0 <= j < |g| && 1 <= k <= 3
    ensures Lag(GroupShift(g)[j], k).Some? <==> exists m :: 0 <= m < |g| && g[m].date == g[j].date - k
    ensures forall m :: 0 <= m < |g| && g[m].date == g[j].date - k ==> Lag(GroupShift(g)[j], k) == Some(g[m].pm25)
  {
    var h := GroupShift(g);
    if j >= k {
      assert g[j - k].date == g[j].date - k;
      assert Lag(h[j], k) == Some(g[j - k].pm25);
    } else {
      assert Lag(h[j], k) == None;
    }
  }

  /** A table of one location already in date order is shifted as a single group. */
  lemma SingleLocationLagged(s: seq<AqRow>, id: string)
    requires forall i :: 0 <= i < |s| ==> s[i].id == id
    requires forall i, j :: 0 <= i < j < |s| ==> s[i].date <= s[j].date
    ensures BackfillLagged(s) == GroupShift(s)
  {
    assert SortedBy(s, RowLe);
    SortByOfSorted(s, RowLe);
    ShiftedWithinLocation(s, id);
    ForLocationUniform(s, id, id);
    ForLocationUniform(Shifted(s), id, id);
  }

  /** With a gap the lags are positional, not calendar: for a location measured on
      days 1, 2 and 4, the row of day 4 gets day 2's value as `lagged_1`. */
  lemma GapGivesPositionalLag()
    ensures var s := [AqRow("X", 1, 10.0, None, None, None),
                      AqRow("X", 2, 20.0, None, None, None),
                      AqRow("X", 4, 40.0, None, None, None)];
            BackfillLagged(s)[2] == AqRow("X", 4, 40.0, Some(20.0), Some(10.0), None)
  {
    var s := [AqRow("X", 1, 10.0, None, None, None),
              AqRow("X", 2, 20.0, None, None, None),
              AqRow("X", 4, 40.0, None, None, None)];
    SingleLocationLagged(s, "X");
  }

  /** Dropping incomplete rows commutes with selecting a location. */
  lemma {:induction false} DropIncompleteForLocation(s: seq<AqRow>, id: string)
    ensures ForLocation(DropIncompleteLags(s), id) == DropIncompleteLags(ForLocation(s, id))
  {
    if s != [] {
      var p := s[..|s| - 1];
      var x := s[|s| - 1];
      DropIncompleteForLocation(p, id);
      var kept := if HasAllLags(x) then [x] else [];
      assert DropIncompleteLags(s) == DropIncompleteLags(p) + kept;
      ForLocationAppend(DropIncompleteLags(p), kept, id);
      assert [x][..0] == [];
      var g := ForLocation(p, id);
      if x.id == id {
        assert ForLocation(s, id) == g + [x];
        assert (g + [x])[..|g|] == g;
      } else {
        assert ForLocation(s, id) == g;
      }
    }
  }

  /** A location's rows where exactly the first three lack a lag keep all but those three. */
  lemma {:induction false} DropLeadingIncomplete(h: seq<AqRow>)
    requires forall j :: 0 <= j < |h| ==> (HasAllLags(h[j]) <==> j >= 3)
    ensures DropIncompleteLags(h) == if |h| <= 3 then [] else h[3..]
  {
    if h != [] {
      var p := h[..|h| - 1];
      DropLeadingIncomplete(p);
      if |h| > 3 {
        assert h[3..] == (if |p| <= 3 then [] else p[3..]) + [h[|h| - 1]];
      }
    }
  }

  /** Every row of a shifted location has all three lags exactly from its fourth row on. */
  lemma CompleteFromFourthRow(g: seq<AqRow>)
    ensures forall j :: 0 <= j < |g| ==> (HasAllLags(GroupShift(g)[j]) <==> j >= 3)
  {
  }

  /** The completeness filter: a location with n rows contributes its date-ordered rows
      from the fourth on, so max(0, n - 3) rows, and none when it has fewer than 4. */
  lemma BackfillContribution(df: seq<AqRow>, id: string)
    ensures var g := ForLocation(SortByIdDate(df), id);
            ForLocation(DropIncompleteLags(BackfillLagged(df)), id) == if |g| <= 3 then [] else GroupShift(g)[3..]
    ensures |ForLocation(DropIncompleteLags(BackfillLagged(df)), id)|
            == if |ForLocation(df, id)| <= 3 then 0 else |ForLocation(df, id)| - 3
  {
    var sorted := SortByIdDate(df);
    var g := ForLocation(sorted, id);
    ShiftedWithinLocation(sorted, id);
    ForLocationPermutation(sorted, df, id);
    CompleteFromFourthRow(g);
    DropIncompleteForLocation(Shifted(sorted), id);
    DropLeadingIncomplete(GroupShift(g));
  }

  /** The worked example: a location measured on four consecutive days with pm25
      10, 20, 30, 40 yields exactly one row, the fourth, with lags 30, 20, 10. */
  lemma FourDaysScenario()
    ensures var s := [AqRow("X1", 1, 10.0, None, None, None), AqRow("X1", 2, 20.0, None, None, None),
                      AqRow("X1", 3, 30.0, None, None, None), AqRow("X1", 4, 40.0, None, None, None)];
            DropIncompleteLags(BackfillLagged(s)) == [AqRow("X1", 4, 40.0, Some(30.0), Some(20.0), Some(10.0))]
  {
    var s := [AqRow("X1", 1, 10.0, None, None, None), AqRow("X1", 2, 20.0, None, None, None),
              AqRow("X1", 3, 30.0, None, None, None), AqRow("X1", 4, 40.0, None, None, None)];
    SingleLocationLagged(s, "X1");
    var h := GroupShift(s);
    CompleteFromFourthRow(s);
    DropLeadingIncomplete(h);
    assert h[3..] == [h[3]];
  }
}
