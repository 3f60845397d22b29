/** The two lag engines side by side: the backfill engine shifts each location's
    date-ordered rows by position, while the daily engine looks up the exact
    calendar day. On a table with one row per location and day, they give a row the
    same three lags whenever its three preceding days are all present. */
module LagConsistency {
  import opened Sorting
  import opened Tables
  import opened BackfillLags
  import opened DailyLags

  /** No two rows are observations of the same location on the same day. */
  predicate UniqueKeys(s: seq<AqRow>)
  {
    forall i, j :: 0 <= i < j < |s| ==> !(s[i].id == s[j].id && s[i].date == s[j].date)
  }

  /** A lookup whose observation is unique finds that observation's pm25. */
  lemma FirstMatchOfUnique(h: seq<AqRow>, id: string, d: Date, m: int)
    requires 0 <= m < |h| && IsObservation(h[m], id, d)
    requires forall i :: 0 <= i < |h| && IsObservation(h[i], id, d) ==> i == m
    ensures FirstMatch(h, id, d) == Some(h[m].pm25)
  {
    FirstMatchIsFirst(h, id, d);
  }

  /** In a table with unique keys, a stored row is what the lookup of its own
      location and day finds. */
  lemma FirstMatchOfStoredRow(df: seq<AqRow>, r: AqRow)
    requires UniqueKeys(df)
    requires r in df
    ensures FirstMatch(df, r.id, r.date) == Some(r.pm25)
  {
    var m :| 0 <= m < |df| && df[m] == r;
    assert forall i :: 0 <= i < |df| && IsObservation(df[i], r.id, r.date) ==> i == m;
    FirstMatchOfUnique(df, r.id, r.date, m);
  }

  /** A row of a location's date-ordered selection is a row of the table. */
  lemma SortedLocationRowIsStored(df: seq<AqRow>, id: string, i: int)
    requires 0 <= i < |ForLocation(SortByIdDate(df), id)|
    ensures ForLocation(SortByIdDate(df), id)[i] in df
  {
    var sorted := SortByIdDate(df);
    ForLocationMembers(sorted, id);
    var r := ForLocation(sorted, id)[i];
    assert r in sorted;
    assert r in multiset(sorted);
  }

  /** The daily lookup gives the row `g[j]` of a location's rows the positional lags of
      `g` when the three rows before it are stored and dated one, two and three days
      before it. */
  lemma DailyRowOfPresentDays(df: seq<AqRow>, g: seq<AqRow>, j: int)
    requires UniqueKeys(df)
    requires 3 <= j < |g|
    requires forall i :: 0 <= i < |g| ==> g[i].id == g[j].id
    requires g[j - 1] in df && g[j - 2] in df && g[j - 3] in df
    requires g[j - 1].date == g[j].date - 1 && g[j - 2].date == g[j].date - 2 && g[j - 3].date == g[j].date - 3
    ensures DailyRow(g[j], df) == GroupShift(g)[j]
  {
    FirstMatchOfStoredRow(df, g[j - 1]);
    FirstMatchOfStoredRow(df, g[j - 2]);
    FirstMatchOfStoredRow(df, g[j - 3]);
    var a := DailyRow(g[j], df);
    var b := GroupShift(g)[j];
    RowExtensionality(a, b);
  }

  /** The engines agree on a row whose three preceding days are present. Let `g` be
      location `id`'s rows of the backfill table in date order, and `g[j]` a row dated
      D whose three predecessors are dated D - 1, D - 2 and D - 3. When D is no earlier
      than yesterday, the daily lookup in the four-day window of the same table gives
      `g[j]` exactly the lags that the backfill shift gives it. */
  lemma EnginesAgreeWhenDaysPresent(df: seq<AqRow>, id: string, j: int, today: Date)
    requires UniqueKeys(df)
    requires 3 <= j < |ForLocation(SortByIdDate(df), id)|
    requires var g := ForLocation(SortByIdDate(df), id);
             && g[j - 1].date == g[j].date - 1
             && g[j - 2].date == g[j].date - 2
             && g[j - 3].date == g[j].date - 3
    requires ForLocation(SortByIdDate(df), id)[j].date >= today - 1
    ensures var b := ForLocation(BackfillLagged(df), id);
            && j < |b|
            && DailyRow(ForLocation(SortByIdDate(df), id)[j], Window(df, today)) == b[j]
  {
    var sorted := SortByIdDate(df);
    var g := ForLocation(sorted, id);
    ShiftedWithinLocation(sorted, id);
    RecentRowSeesAllLags(g[j], df, today);
    SortedLocationRowIsStored(df, id, j - 1);
    SortedLocationRowIsStored(df, id, j - 2);
    SortedLocationRowIsStored(df, id, j - 3);
    DailyRowOfPresentDays(df, g, j);
  }

  /** The daily lookup across a gap: for a location measured on days 1, 2 and 4, the
      row of day 4 gets no `lagged_1`, and the values of days 2 and 1 as `lagged_2`
      and `lagged_3`. */
  lemma DailyLookupAcrossGap()
    ensures var s := [AqRow("X", 1, 10.0, None, None, None),
                      AqRow("X", 2, 20.0, None, None, None),
                      AqRow("X", 4, 40.0, None, None, None)];
            DailyRow(s[2], s) == AqRow("X", 4, 40.0, None, Some(20.0), Some(10.0))
  {
    var s := [AqRow("X", 1, 10.0, None, None, None),
              AqRow("X", 2, 20.0, None, None, None),
              AqRow("X", 4, 40.0, None, None, None)];
    FirstMatchOfUnique(s, "X", 2, 1);
    FirstMatchOfUnique(s, "X", 1, 0);
    FirstMatchIsFirst(s, "X", 3);
  }

  /** Across a gap the engines part: the daily lookup leaves the missing day missing,
      whereas the backfill shift gives the row of day 4 the values of days 2 and 1 as
      `lagged_1` and `lagged_2`, and no `lagged_3`. */
  lemma EnginesDisagreeAcrossGap()
    ensures var s := [AqRow("X", 1, 10.0, None, None, None),
                      AqRow("X", 2, 20.0, None, None, None),
                      AqRow("X", 4, 40.0, None, None, None)];
            && DailyRow(s[2], s).lagged1 == None
            && BackfillLagged(s)[2].lagged1 == Some(20.0)
            && DailyRow(s[2], s).lagged3 == Some(10.0)
            && BackfillLagged(s)[2].lagged3 == None
  {
    DailyLookupAcrossGap();
    GapGivesPositionalLag();
  }
}
