/** The tables the air-quality pipelines pass between each other, the location
    registry, and the per-location selection (`df[df["id"] == id]`) that every
    lag engine is built from. */
module Tables {
  import opened Sorting

  /** A cell that may be missing: `None` stands for pandas' NaN / NaT. */
  datatype Option<T> = None | Some(value: T)

  /** Why a pipeline step raises instead of producing a table. */
  datatype Error =
    | FileNotFound(path: string)       // a location's CSV file does not exist
    | NoObjectsToConcatenate           // `pd.concat` of an empty list
    | NoDatesForPlace(id: string)      // `min()`/`max()` of an empty selection, then `strftime`
    | BadInterval                      // a response whose interval cannot step a date range
    | MissingVariable(index: nat)      // a response with fewer series than requested variables
    | LengthMismatch                   // columns of different lengths in `pd.DataFrame(data)`
    | MissingColumn(name: string)      // reading a column that no assignment created

  datatype Result<T> = Success(value: T) | Failure(error: Error)

  /** A calendar date, as a day number. */
  type Date = int

  datatype Location = Location(id: string, latitude: real, longitude: real, city: string, country: string)

  /** One entry of `locations.json`, in the dictionary's order: the key and the record under it. */
  datatype Entry = Entry(key: string, place: Location)

  /** A row of the air-quality table. A row without lag columns has all three `None`,
      as pandas fills a column created by `.loc` assignment with NaN. */
  datatype AqRow = AqRow(id: string, date: Date, pm25: real,
                         lagged1: Option<real>, lagged2: Option<real>, lagged3: Option<real>)

  /** A row of the weather table: the place, the day and one value per daily variable. */
  datatype WeatherRow = WeatherRow(id: string, date: Date, values: map<string, real>)

  /** Column `lagged_k`. */
  function Lag(r: AqRow, k: int): Option<real>
    requires 1 <= k <= 3
  {
    if k == 1 then r.lagged1 else if k == 2 then r.lagged2 else r.lagged3
  }

  /** The row with column `lagged_k` set to `v`. */
  function WithLag(r: AqRow, k: int, v: Option<real>): (r': AqRow)
    requires 1 <= k <= 3
    ensures Lag(r', k) == v
    ensures k != 1 ==> r'.lagged1 == r.lagged1
    ensures k != 2 ==> r'.lagged2 == r.lagged2
    ensures k != 3 ==> r'.lagged3 == r.lagged3
    ensures SameObservation(r', r)
  {
    if k == 1 then r.(lagged1 := v) else if k == 2 then r.(lagged2 := v) else r.(lagged3 := v)
  }

  /** The columns `id`, `date` and `pm25` agree. */
  predicate SameObservation(a: AqRow, b: AqRow)
  {
    a.id == b.id && a.date == b.date && a.pm25 == b.pm25
  }

  /** A row is determined by its observation and its three lag columns. */
  lemma RowExtensionality(a: AqRow, b: AqRow)
    requires SameObservation(a, b)
    requires a.lagged1 == b.lagged1 && a.lagged2 == b.lagged2 && a.lagged3 == b.lagged3
    ensures a == b
  {
  }

  predicate HasAllLags(r: AqRow)
  {
    r.lagged1.Some? && r.lagged2.Some? && r.lagged3.Some?
  }

  /** `df[df["id"] == id]`: the rows of one location, in table order. */
  function ForLocation(s: seq<AqRow>, id: string): (g: seq<AqRow>)
    ensures |g| <= |s|
    ensures forall k :: 0 <= k < |g| ==> g[k].id == id
  {
    if s == [] then []
    else ForLocation(s[..|s| - 1], id) + (if s[|s| - 1].id == id then [s[|s| - 1]] else [])
  }

  /** Extending a table by its next row extends the selection by that row when it matches. */
  lemma ForLocationPrefix(s: seq<AqRow>, i: int, id: string)
    requires 0 <= i < |s|
    ensures ForLocation(s[..i + 1], id) == ForLocation(s[..i], id) + (if s[i].id == id then [s[i]] else [])
  {
    assert s[..i + 1][..i] == s[..i];
  }

  /** The selection holds exactly the table's rows of that location. */
  lemma {:induction false} ForLocationMembers(s: seq<AqRow>, id: string)
    ensures forall r :: r in ForLocation(s, id) <==> r in s && r.id == id
  {
    if s != [] {
      var p := s[..|s| - 1];
      assert s == p + [s[|s| - 1]];
      ForLocationMembers(p, id);
    }
  }

  lemma {:induction false} ForLocationAppend(a: seq<AqRow>, b: seq<AqRow>, id: string)
    ensures ForLocation(a + b, id) == ForLocation(a, id) + ForLocation(b, id)
  {
    if b == [] {
      assert a + b == a;
    } else {
      var c := b[..|b| - 1];
      assert (a + b)[..|a + b| - 1] == a + c;
      assert b == c + [b[|b| - 1]];
      ForLocationAppend(a, c, id);
    }
  }

  /** Selecting the one location a table holds keeps all of it; selecting any other keeps nothing. */
  lemma {:induction false} ForLocationUniform(s: seq<AqRow>, owner: string, id: string)
    requires forall k :: 0 <= k < |s| ==> s[k].id == owner
    ensures ForLocation(s, id) == if owner == id then s else []
  {
    if s != [] {
      var p := s[..|s| - 1];
      assert s == p + [s[|s| - 1]];
      ForLocationUniform(p, owner, id);
    }
  }

  /** Selecting a location counts each row as often as the table holds it, if the id matches. */
  lemma {:induction false} ForLocationCount(s: seq<AqRow>, id: string, r: AqRow)
    ensures multiset(ForLocation(s, id))[r] == if r.id == id then multiset(s)[r] else 0
  {
    if s != [] {
      var p := s[..|s| - 1];
      assert s == p + [s[|s| - 1]];
      ForLocationCount(p, id, r);
    }
  }

  /** Selecting a location commutes with reordering the table. */
  lemma ForLocationPermutation(a: seq<AqRow>, b: seq<AqRow>, id: string)
    requires multiset(a) == multiset(b)
    ensures multiset(ForLocation(a, id)) == multiset(ForLocation(b, id))
    ensures |ForLocation(a, id)| == |ForLocation(b, id)|
  {
    forall r ensures multiset(ForLocation(a, id))[r] == multiset(ForLocation(b, id))[r] {
      ForLocationCount(a, id, r);
      ForLocationCount(b, id, r);
    }
    assert multiset(ForLocation(a, id)) == multiset(ForLocation(b, id));
    assert |multiset(ForLocation(a, id))| == |ForLocation(a, id)|;
    assert |multiset(ForLocation(b, id))| == |ForLocation(b, id)|;
  }

  /** The `pm25` column of a table. */
  function Pm25s(s: seq<AqRow>): seq<real>
  {
    seq(|s|, k requires 0 <= k < |s| => s[k].pm25)
  }

  /** `batch_data[batch_data["id"] == id]`: the weather rows of one place, in table order. */
  function WeatherFor(s: seq<WeatherRow>, id: string): (w: seq<WeatherRow>)
    ensures |w| <= |s|
    ensures forall k :: 0 <= k < |w| ==> w[k].id == id
  {
    if s == [] then []
    else WeatherFor(s[..|s| - 1], id) + (if s[|s| - 1].id == id then [s[|s| - 1]] else [])
  }

  /** The selection holds exactly the weather rows of that place. */
  lemma {:induction false} WeatherForMembers(s: seq<WeatherRow>, id: string)
    ensures forall r :: r in WeatherFor(s, id) <==> r in s && r.id == id
  {
    if s != [] {
      var p := s[..|s| - 1];
      assert s == p + [s[|s| - 1]];
      WeatherForMembers(p, id);
    }
  }

  /** A place without weather rows selects nothing. */
  lemma {:induction false} WeatherForAbsent(s: seq<WeatherRow>, id: string)
    requires forall k :: 0 <= k < |s| ==> s[k].id != id
    ensures WeatherFor(s, id) == []
  {
    if s != [] {
      WeatherForAbsent(s[..|s| - 1], id);
    }
  }

  /** `pd.concat(frames, ignore_index=True)` of a non-empty list. */
  function Flatten<T>(ss: seq<seq<T>>): seq<T>
  {
    if ss == [] then [] else Flatten(ss[..|ss| - 1]) + ss[|ss| - 1]
  }

  lemma {:induction false} FlattenAppend<T>(a: seq<seq<T>>, b: seq<seq<T>>)
    ensures Flatten(a + b) == Flatten(a) + Flatten(b)
  {
    if b == [] {
      assert a + b == a;
    } else {
      var c := b[..|b| - 1];
      assert (a + b)[..|a + b| - 1] == a + c;
      assert b == c + [b[|b| - 1]];
      FlattenAppend(a, c);
    }
  }

  /** A row of the concatenation comes from one of the concatenated tables. */
  lemma {:induction false} FlattenMember<T>(ss: seq<seq<T>>, x: T)
    requires x in Flatten(ss)
    ensures exists i, j :: 0 <= i < |ss| && 0 <= j < |ss[i]| && ss[i][j] == x
  {
    var p := ss[..|ss| - 1];
    var last := ss[|ss| - 1];
    if x in Flatten(p) {
      FlattenMember(p, x);
      var i, j :| 0 <= i < |p| && 0 <= j < |p[i]| && p[i][j] == x;
      assert ss[i] == p[i];
    } else {
      assert x in last;
      var j :| 0 <= j < |last| && last[j] == x;
    }
  }

  /** The concatenation holds a table between the tables before and after it. */
  lemma FlattenMiddle<T>(a: seq<seq<T>>, x: seq<T>, b: seq<seq<T>>)
    ensures Flatten(a + [x] + b) == Flatten(a) + x + Flatten(b)
  {
    FlattenAppend(a + [x], b);
    assert (a + [x])[..|a|] == a;
  }

  lemma SplitAround<T>(s: seq<T>, k: int)
    requires 0 <= k < |s|
    ensures s == s[..k] + [s[k]] + s[k + 1..]
  {
  }

  /** The concatenation splits around any one of its tables. */
  lemma FlattenSplit<T>(ss: seq<seq<T>>, k: int)
    requires 0 <= k < |ss|
    ensures Flatten(ss) == Flatten(ss[..k]) + ss[k] + Flatten(ss[k + 1..])
  {
    SplitAround(ss, k);
    FlattenMiddle(ss[..k], ss[k], ss[k + 1..]);
  }

  /** Each table holds only rows of its owner. */
  predicate OwnedBy(ts: seq<seq<AqRow>>, owners: seq<string>)
  {
    && |ts| == |owners|
    && forall i, j :: 0 <= i < |ts| && 0 <= j < |ts[i]| ==> ts[i][j].id == owners[i]
  }

  /** Concatenating tables none of which belongs to `id` gives no row of `id`. */
  lemma {:induction false} FlattenForAbsent(ts: seq<seq<AqRow>>, owners: seq<string>, id: string)
    requires OwnedBy(ts, owners)
    requires forall i :: 0 <= i < |owners| ==> owners[i] != id
    ensures ForLocation(Flatten(ts), id) == []
  {
    if ts != [] {
      var n := |ts| - 1;
      assert OwnedBy(ts[..n], owners[..n]);
      FlattenForAbsent(ts[..n], owners[..n], id);
      ForLocationAppend(Flatten(ts[..n]), ts[n], id);
      ForLocationUniform(ts[n], owners[n], id);
    }
  }

  /** With distinct owners, selecting owner `k` from the concatenation gives back table `k`. */
  lemma {:induction false} FlattenForOwner(ts: seq<seq<AqRow>>, owners: seq<string>, k: int)
    requires OwnedBy(ts, owners)
    requires forall i, j :: 0 <= i < j < |owners| ==> owners[i] != owners[j]
    requires 0 <= k < |ts|
    ensures ForLocation(Flatten(ts), owners[k]) == ts[k]
  {
    var n := |ts| - 1;
    assert OwnedBy(ts[..n], owners[..n]);
    ForLocationAppend(Flatten(ts[..n]), ts[n], owners[k]);
    ForLocationUniform(ts[n], owners[n], owners[k]);
    if k == n {
      FlattenForAbsent(ts[..n], owners[..n], owners[k]);
    } else {
      FlattenForOwner(ts[..n], owners[..n], k);
    }
  }
}
