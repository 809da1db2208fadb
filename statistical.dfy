/**
 * The statistics analyzer: the frame it builds from the sample events, the
 * derived averages it adds to the summary, and the event patterns (events per
 * year, the most common location tokens, and the clusters assembled from the
 * labels of a DBSCAN run).
 *
 * DBSCAN and the great-circle radius of a cluster are collaborators: the
 * analyzer passes them the coordinates and reads back the labels and the
 * radius.
 */
module Statistical {
  import opened Wrappers
  import opened Text
  import opened Collections
  import opened Records
  import DataRetrieve

  /** (latitude, longitude) */
  type Point = (real, real)

  /** A row of the analyzer's frame: the sample event and the coordinates given to its location. */
  datatype AnalysisRow = AnalysisRow(event: SampleEvent, coords: Option<Point>)

  /** The fixed coordinates every non-null location is given. */
  const BrazilCentroid: Point := (-15.78, -47.93)

  /** _extract_coords: the fixed centroid for a location, NaN (None) for a null one. */
  function ExtractCoords(location: Option<string>): Option<Point> {
    if location.Some? then Some(BrazilCentroid) else None
  }

  /** _create_dataframe: no frame without sample events, else one row per sample. */
  function CreateDataFrame(stats: Stats): seq<AnalysisRow> {
    if stats.sampleEvents.Absent? || stats.sampleEvents.val == [] then []
    else
      var ev := stats.sampleEvents.val;
      seq(|ev|, i requires 0 <= i < |ev| => AnalysisRow(ev[i], ExtractCoords(ev[i].location)))
  }

  /**
   * The frame is empty exactly when sample_events is missing or empty;
   * otherwise it has the samples in order, each with the fixed coordinates when
   * its location is non-null and none otherwise.
   */
  lemma FrameOfSamples(stats: Stats)
    ensures var df := CreateDataFrame(stats);
      (df == [] <==> stats.sampleEvents.Absent? || stats.sampleEvents.val == [])
      && (df != [] ==> |df| == |stats.sampleEvents.val|)
      && (forall i :: 0 <= i < |df| ==>
            df[i].event == stats.sampleEvents.val[i]
            && (df[i].coords.Some? <==> df[i].event.location.Some?)
            && (df[i].coords.Some? ==> df[i].coords.value == BrazilCentroid))
  {
  }

  // ---------------------------------------------------------------------------
  // calculate_core_stats
  // ---------------------------------------------------------------------------

  const NoStatisticsMessage: string := "No statistics available"

  /** str() of the ZeroDivisionError of an int divided by 0. */
  const ZeroDivisionText: string := "division by zero"

  /** str() of the TypeError of None divided by an int. */
  const NoneDivisionText: string := "unsupported operand type(s) for /: 'NoneType' and 'int'"

  /** Python's true division of two ints, exact. */
  function Divide(n: int, d: int): (r: Result<real, string>)
    ensures r.Err? <==> d == 0
    ensures r.Ok? ==> r.value * d as real == n as real
  {
    if d == 0 then Err(ZeroDivisionText) else Ok(n as real / d as real)
  }

  /**
   * calculate_core_stats: the summary with the three averages and the year
   * range added, or the exception the lookups and divisions raise, in the order
   * the source evaluates them.
   */
  function CoreStats(s: Stats): Result<Stats, string> {
    if s.IsEmpty() then Ok(ErrorOnly(NoStatisticsMessage))
    else
      var deaths :- Get(s.totalDeaths, "total_deaths");
      var events :- Get(s.totalEvents, "total_events");
      var avgDeaths :- Divide(deaths, events);
      // events is not 0 from here on, so the other two divisions succeed
      var affected :- Get(s.totalAffected, "total_affected");
      var damage :- Get(s.totalDamageUsd, "total_damage_usd");
      if damage.None? then Err(NoneDivisionText)
      else
        var years :- Get(s.years, "years");
        Ok(s.(avgDeathsPerEvent := Present(avgDeaths),
              avgAffectedPerEvent := Present(affected as real / events as real),
              avgDamagePerEventUsd := Present(damage.value as real / events as real),
              yearRange := Present(years.max - years.min)))
  }

  /** The analysis of empty stats is the error record. */
  lemma CoreStatsOfNothing()
    ensures CoreStats(NoStats) == Ok(ErrorOnly(NoStatisticsMessage))
  {
  }

  /**
   * calculate_core_stats succeeds on non-empty stats exactly when the totals,
   * a non-zero event count, a non-None damage total and the years are present.
   */
  lemma CoreStatsSucceeds(s: Stats)
    requires !s.IsEmpty()
    ensures CoreStats(s).Ok? <==>
      s.totalDeaths.Present? && s.totalEvents.Present? && s.totalEvents.val != 0
      && s.totalAffected.Present? && s.totalDamageUsd.Present? && s.totalDamageUsd.val.Some?
      && s.years.Present?
  {
  }

  /**
   * On success the result keeps every key and value of the stats except the
   * four it writes: each average times the event count is its total, and the
   * year range is max minus min.
   */
  lemma CoreStatsAdds(s: Stats)
    requires !s.IsEmpty() && CoreStats(s).Ok?
    ensures var e := CoreStats(s).value;
      var n := s.totalEvents.val as real;
      e.(avgDeathsPerEvent := s.avgDeathsPerEvent, avgAffectedPerEvent := s.avgAffectedPerEvent,
         avgDamagePerEventUsd := s.avgDamagePerEventUsd, yearRange := s.yearRange) == s
      && e.avgDeathsPerEvent.Present? && e.avgDeathsPerEvent.val * n == s.totalDeaths.val as real
      && e.avgAffectedPerEvent.Present? && e.avgAffectedPerEvent.val * n == s.totalAffected.val as real
      && e.avgDamagePerEventUsd.Present? && e.avgDamagePerEventUsd.val * n == s.totalDamageUsd.val.value as real
      && e.yearRange == Present(s.years.val.max - s.years.val.min)
  {
  }

  /** The "no data" record of the retrieval agent has no totals: the first lookup fails. */
  lemma CoreStatsOfMessage(m: string)
    ensures CoreStats(MessageOnly(m)) == Err(KeyErrorText("total_deaths"))
  {
  }

  /**
   * On the summary of a non-empty frame, calculate_core_stats succeeds exactly
   * when the frame has the damage column, and the year range is never negative.
   */
  lemma CoreStatsOfSummary(frame: DataRetrieve.Frame, s: Stats)
    requires !frame.IsEmpty() && DataRetrieve.Summarises(frame, s)
    ensures CoreStats(s).Ok? <==> "TOTAL_DAMAGE_000_USD" in frame.columns
    ensures CoreStats(s).Ok? ==> CoreStats(s).value.yearRange.val >= 0
  {
    CoreStatsSucceeds(s);
  }

  // ---------------------------------------------------------------------------
  // Event patterns
  // ---------------------------------------------------------------------------

  function Years(df: seq<AnalysisRow>): seq<Option<int>> {
    seq(|df|, i requires 0 <= i < |df| => df[i].event.startYear)
  }

  /** _count_events_by_year: value_counts() of START_YEAR, which skips nulls. */
  function EventsPerYear(df: seq<AnalysisRow>): seq<(int, nat)> {
    ValueCounts(NonNull(Years(df)))
  }

  /**
   * Each year is a year of some row, listed once, most frequent first, with the
   * number of rows of that year as its count; every non-null year is listed, and
   * the counts add up to the number of rows whose year is non-null.
   */
  lemma EventsPerYearCounts(df: seq<AnalysisRow>)
    ensures var r := EventsPerYear(df);
      (forall i :: 0 <= i < |r| ==> r[i].1 >= 1 && Some(r[i].0) in Years(df))
      && (forall i :: 0 <= i < |r| ==> r[i].1 == Count(Years(df), Some(r[i].0)))
      && (forall i :: 0 <= i < |df| && df[i].event.startYear.Some? ==>
            (df[i].event.startYear.value, Count(Years(df), df[i].event.startYear)) in r)
      && (forall i, j :: 0 <= i < j < |r| ==> r[i].0 != r[j].0)
      && CountsDescending(r)
      && TotalCount(r) == |NonNull(Years(df))|
  {
    ValueCountsTotal(NonNull(Years(df)));
    YearCountsExact(df);
    YearsComplete(df);
  }

  lemma YearCountsExact(df: seq<AnalysisRow>)
    ensures var r := EventsPerYear(df);
      forall i :: 0 <= i < |r| ==> r[i].1 == Count(Years(df), Some(r[i].0))
  {
    var ys := Years(df);
    var r := EventsPerYear(df);
    forall i | 0 <= i < |r| ensures r[i].1 == Count(ys, Some(r[i].0)) {
      NonNullCounts(ys, r[i].0);
    }
  }

  lemma YearsComplete(df: seq<AnalysisRow>)
    ensures var r := EventsPerYear(df);
      forall i :: 0 <= i < |df| && df[i].event.startYear.Some? ==>
        (df[i].event.startYear.value, Count(Years(df), df[i].event.startYear)) in r
  {
    var ys := Years(df);
    var xs := NonNull(ys);
    var r := EventsPerYear(df);
    forall i | 0 <= i < |df| && df[i].event.startYear.Some?
      ensures (df[i].event.startYear.value, Count(ys, df[i].event.startYear)) in r
    {
      var y := df[i].event.startYear.value;
      assert ys[i] == Some(y);
      var k :| 0 <= k < |xs| && xs[k] == y;
      NonNullCounts(ys, y);
    }
  }

  const TopN: nat := 3

  function StripAll(parts: seq<string>): (r: seq<string>)
    ensures |r| == |parts|
    ensures forall k :: 0 <= k < |r| ==> r[k] == Strip(parts[k])
  {
    seq(|parts|, k requires 0 <= k < |parts| => Strip(parts[k]))
  }

  /** The stripped pieces of a location split at ','; a null location has none. */
  function Pieces(location: Option<string>): seq<string> {
    if location.Some? then StripAll(Split(location.value, ",")) else []
  }

  /** `LOCATION.str.split(',').explode().str.strip()` without its nulls. */
  function LocationTokens(df: seq<AnalysisRow>): seq<string> {
    if df == [] then [] else Pieces(df[0].event.location) + LocationTokens(df[1..])
  }

  /** `t` is a stripped piece of a comma split of the location of some row. */
  predicate IsLocationToken(df: seq<AnalysisRow>, t: string) {
    exists i | 0 <= i < |df| :: df[i].event.location.Some? && IsPieceOf(df[i].event.location.value, t)
  }

  /** `t` is one of the stripped pieces of `location` split at ','. */
  predicate IsPieceOf(location: string, t: string) {
    exists k | 0 <= k < |Split(location, ",")| :: t == Strip(Split(location, ",")[k])
  }

  lemma {:induction false} TokenIsPiece(df: seq<AnalysisRow>, j: nat)
    requires j < |LocationTokens(df)|
    ensures IsLocationToken(df, LocationTokens(df)[j])
  {
    var p := Pieces(df[0].event.location);
    var rest := LocationTokens(df[1..]);
    var t := (p + rest)[j];
    if j < |p| {
      assert t == Strip(Split(df[0].event.location.value, ",")[j]);
      assert IsPieceOf(df[0].event.location.value, t);
    } else {
      assert t == rest[j - |p|];
      TokenIsPiece(df[1..], j - |p|);
      var i :| 0 <= i < |df[1..]| && df[1..][i].event.location.Some? && IsPieceOf(df[1..][i].event.location.value, t);
      assert df[1..][i] == df[i + 1];
    }
  }

  /** _find_common_locations with top_n = n. */
  function CommonLocations(df: seq<AnalysisRow>, n: nat): seq<string> {
    Keys(Take(ValueCounts(LocationTokens(df)), n))
  }

  /**
   * At most n distinct tokens, most frequent first, and no token left out
   * occurs more often than one kept.
   */
  lemma CommonLocationsRanked(df: seq<AnalysisRow>, n: nat)
    ensures var r := CommonLocations(df, n);
      var xs := LocationTokens(df);
      |r| == (if n < |Distinct(xs)| then n else |Distinct(xs)|)
      && (forall i, j :: 0 <= i < j < |r| ==> r[i] != r[j])
      && (forall i, j :: 0 <= i < j < |r| ==> Count(xs, r[i]) >= Count(xs, r[j]))
      && (forall k, i :: 0 <= k < |xs| && xs[k] !in r && 0 <= i < |r| ==> Count(xs, xs[k]) <= Count(xs, r[i]))
  {
    MostFrequent(LocationTokens(df), n);
  }

  /** Each common location is a stripped piece of a location: no whitespace at either end. */
  lemma CommonLocationsAreTokens(df: seq<AnalysisRow>, n: nat)
    ensures var r := CommonLocations(df, n);
      forall i :: 0 <= i < |r| ==> IsLocationToken(df, r[i]) && IsStripped(r[i])
  {
    var xs := LocationTokens(df);
    var v := ValueCounts(xs);
    var r := CommonLocations(df, n);
    forall i | 0 <= i < |r| ensures IsLocationToken(df, r[i]) && IsStripped(r[i]) {
      assert r[i] == v[i].0;
      var j :| 0 <= j < |xs| && xs[j] == r[i];
      TokenIsPiece(df, j);
      TokenIsStripped(df, r[i]);
    }
  }

  /** No whitespace at either end, as str.strip() leaves it. */
  predicate IsStripped(t: string) {
    t == [] || (!IsSpace(t[0]) && !IsSpace(t[|t| - 1]))
  }

  lemma TokenIsStripped(df: seq<AnalysisRow>, t: string)
    requires IsLocationToken(df, t)
    ensures IsStripped(t)
  {
    var i :| 0 <= i < |df| && df[i].event.location.Some? && IsPieceOf(df[i].event.location.value, t);
    var k :| 0 <= k < |Split(df[i].event.location.value, ",")| &&
           t == Strip(Split(df[i].event.location.value, ",")[k]);
  }

  // ---------------------------------------------------------------------------
  // Clusters
  // ---------------------------------------------------------------------------

  /** DBSCAN(eps, min_samples).fit(coords).labels_ */
  type Dbscan = (seq<Point>, real, nat) -> seq<int>

  /** The rounded great-circle radius of a cluster's points around its centroid, in km. */
  type Radius = (seq<Point>, Point) -> real

  const EpsKm: real := 300.0

  /** The eps passed to DBSCAN: eps_km over 111 km per degree. */
  const EpsDeg: real := EpsKm / 111.0

  const MinSamples: nat := 2

  /** The label DBSCAN gives to noise. */
  const Noise: int := -1

  const InsufficientGeoData: string := "Insufficient geospatial data"

  /** str() of the ValueError of assigning a column of the wrong length. */
  function LengthMismatch(values: nat, index: nat): string {
    "Length of values (" + NatToString(values) + ") does not match length of index (" + NatToString(index) + ")"
  }

  function CoordColumn(df: seq<AnalysisRow>): seq<Option<Point>> {
    seq(|df|, i requires 0 <= i < |df| => df[i].coords)
  }

  /** `df[['LATITUDE', 'LONGITUDE']].dropna()` */
  function Coords(df: seq<AnalysisRow>): seq<Point> {
    NonNull(CoordColumn(df))
  }

  /** The labels DBSCAN assigns to the coordinates of the frame. */
  function Labels(df: seq<AnalysisRow>, dbscan: Dbscan): seq<int> {
    dbscan(Coords(df), EpsDeg, MinSamples)
  }

  /**
   * `coords[labels == l]`: every point labelled l, as many as the label occurs.
   * MembersAppend states that they are kept in order and that no other point is.
   */
  function Members(coords: seq<Point>, labels: seq<int>, l: int): (r: seq<Point>)
    requires |labels| == |coords|
    ensures |r| == Count(labels, l)
    ensures forall i :: 0 <= i < |coords| && labels[i] == l ==> coords[i] in r
  {
    if coords == [] then []
    else
      assert labels == [labels[0]] + labels[1..];
      assert multiset(labels) == multiset{labels[0]} + multiset(labels[1..]);
      (if labels[0] == l then [coords[0]] else []) + Members(coords[1..], labels[1..], l)
  }

  /**
   * The mask of two frame pieces put together selects the two selections put
   * together, and a one-row frame keeps its point exactly when its label is l.
   */
  lemma {:induction false} MembersAppend(c1: seq<Point>, l1: seq<int>, c2: seq<Point>, l2: seq<int>, l: int)
    requires |c1| == |l1| && |c2| == |l2|
    ensures Members(c1 + c2, l1 + l2, l) == Members(c1, l1, l) + Members(c2, l2, l)
    ensures forall p, m :: Members([p], [m], l) == if m == l then [p] else []
  {
    if c1 != [] {
      assert (c1 + c2)[1..] == c1[1..] + c2;
      assert (l1 + l2)[1..] == l1[1..] + l2;
      MembersAppend(c1[1..], l1[1..], c2, l2, l);
    } else {
      assert c1 + c2 == c2 && l1 + l2 == l2;
    }
  }

  function SumReal(xs: seq<real>): real {
    if xs == [] then 0.0 else xs[0] + SumReal(xs[1..])
  }

  /** mean() of a column, exact (it is only taken of the non-empty columns of a label). */
  function Mean(xs: seq<real>): (m: real)
    ensures |xs| > 0 ==> m * |xs| as real == SumReal(xs)
  {
    if xs == [] then 0.0 else SumReal(xs) / |xs| as real
  }

  function Lats(ps: seq<Point>): seq<real> {
    seq(|ps|, i requires 0 <= i < |ps| => ps[i].0)
  }

  function Lons(ps: seq<Point>): seq<real> {
    seq(|ps|, i requires 0 <= i < |ps| => ps[i].1)
  }

  /** The entry of one label: its point count, the mean of its points, and the radius around it. */
  function ClusterOf(coords: seq<Point>, labels: seq<int>, l: int, radius: Radius): (c: Cluster)
    requires |labels| == |coords|
    ensures c.pointCount == Count(labels, l)
    ensures l in labels ==> c.pointCount >= 1
    ensures var pts := Members(coords, labels, l);
      c.lat == Mean(Lats(pts)) && c.lon == Mean(Lons(pts))
    ensures c.radiusKm == radius(Members(coords, labels, l), (c.lat, c.lon))
  {
    var pts := Members(coords, labels, l);
    var centroid := (Mean(Lats(pts)), Mean(Lons(pts)));
    Cluster(|pts|, centroid.0, centroid.1, radius(pts, centroid))
  }

  /**
   * The centroid of a label that occurs is the average of its points: each
   * coordinate is that coordinate's sum over the points divided by the point count.
   */
  lemma ClusterCentroid(coords: seq<Point>, labels: seq<int>, l: int, radius: Radius)
    requires |labels| == |coords| && l in labels
    ensures var c := ClusterOf(coords, labels, l, radius);
      var pts := Members(coords, labels, l);
      c.lat == SumReal(Lats(pts)) / c.pointCount as real && c.lon == SumReal(Lons(pts)) / c.pointCount as real
  {
    var c := ClusterOf(coords, labels, l, radius);
    var pts := Members(coords, labels, l);
    assert |Lats(pts)| == |pts| == c.pointCount > 0 && |Lons(pts)| == |pts|;
  }

  /** The labels of `ls` other than noise, in order. */
  function NonNoise(ls: seq<int>): seq<int> {
    if ls == [] then []
    else NonNoise(ls[..|ls| - 1]) + (if ls[|ls| - 1] != Noise then [ls[|ls| - 1]] else [])
  }

  lemma NonNoiseStep(ls: seq<int>, i: nat)
    requires i < |ls|
    ensures NonNoise(ls[..i + 1]) == if ls[i] != Noise then NonNoise(ls[..i]) + [ls[i]] else NonNoise(ls[..i])
  {
    assert ls[..i + 1][..i] == ls[..i];
  }

  /** NonNoise keeps exactly the labels other than noise, in their order. */
  lemma {:induction false} NonNoiseKeeps(ls: seq<int>)
    requires forall i, j :: 0 <= i < j < |ls| ==> ls[i] < ls[j]
    ensures var r := NonNoise(ls);
      (forall k :: 0 <= k < |r| ==> r[k] in ls && r[k] != Noise)
      && (forall k :: 0 <= k < |ls| && ls[k] != Noise ==> ls[k] in r)
      && (forall i, j :: 0 <= i < j < |r| ==> r[i] < r[j])
  {
    if ls != [] {
      var init := ls[..|ls| - 1];
      var last := ls[|ls| - 1];
      assert forall k :: 0 <= k < |ls| - 1 ==> ls[k] == init[k];
      NonNoiseKeeps(init);
      var r0 := NonNoise(init);
      var r := NonNoise(ls);
      assert r == r0 + (if last != Noise then [last] else []);
      forall k | 0 <= k < |r0| ensures r0[k] < last {
        assert r0[k] in init;
        var j :| 0 <= j < |init| && init[j] == r0[k];
        assert ls[j] == r0[k];
      }
      assert forall i, j :: 0 <= i < j < |r| ==> r[i] < r[j];
      forall k | 0 <= k < |r| ensures r[k] in ls && r[k] != Noise {
        if k < |r0| {
          assert r[k] == r0[k] && r0[k] in init;
        }
      }
      forall k | 0 <= k < |ls| && ls[k] != Noise ensures ls[k] in r {
        if k < |ls| - 1 {
          assert ls[k] == init[k] && ls[k] in r0;
        }
      }
    }
  }

  /** The labels the loop over `set(labels)` makes an entry for, in iteration order. */
  function ClusterLabels(labels: seq<int>): (ks: seq<int>)
    ensures forall k :: 0 <= k < |ks| ==> ks[k] in labels && ks[k] != Noise
    ensures forall i :: 0 <= i < |labels| && labels[i] != Noise ==> labels[i] in ks
    ensures forall i, j :: 0 <= i < j < |ks| ==> ks[i] < ks[j]
  {
    var a := Ascending(labels);
    NonNoiseKeeps(a);
    var ks := NonNoise(a);
    assert forall k :: 0 <= k < |ks| ==> ks[k] in labels by {
      forall k | 0 <= k < |ks| ensures ks[k] in labels {
        var j :| 0 <= j < |a| && a[j] == ks[k];
      }
    }
    assert forall i :: 0 <= i < |labels| && labels[i] != Noise ==> labels[i] in ks by {
      forall i | 0 <= i < |labels| && labels[i] != Noise ensures labels[i] in ks {
        var j :| 0 <= j < |a| && a[j] == labels[i];
      }
    }
    ks
  }

  function ClusterList(coords: seq<Point>, labels: seq<int>, ks: seq<int>, radius: Radius): seq<Cluster>
    requires |labels| == |coords|
  {
    seq(|ks|, k requires 0 <= k < |ks| => ClusterOf(coords, labels, ks[k], radius))
  }

  lemma ClusterListSnoc(coords: seq<Point>, labels: seq<int>, ks: seq<int>, l: int, radius: Radius)
    requires |labels| == |coords|
    ensures ClusterList(coords, labels, ks + [l], radius)
      == ClusterList(coords, labels, ks, radius) + [ClusterOf(coords, labels, l, radius)]
  {
  }

  /** The for loop of detect_clusters over the sorted labels: one cluster per label other than noise, in order. */
  method ClusterLoop(coords: seq<Point>, labels: seq<int>, ls: seq<int>, radius: Radius) returns (clusters: seq<Cluster>)
    requires |labels| == |coords|
    ensures clusters == ClusterList(coords, labels, NonNoise(ls), radius)
  {
    clusters := [];
    var i := 0;
    while i < |ls|
      invariant 0 <= i <= |ls|
      invariant clusters == ClusterList(coords, labels, NonNoise(ls[..i]), radius)
    {
      var l := ls[i];
      if l != Noise {
        assert ClusterList(coords, labels, NonNoise(ls[..i + 1]), radius)
            == clusters + [ClusterOf(coords, labels, l, radius)] by {
          NonNoiseStep(ls, i);
          ClusterListSnoc(coords, labels, NonNoise(ls[..i]), l, radius);
        }
        clusters := clusters + [ClusterOf(coords, labels, l, radius)];
      } else {
        assert NonNoise(ls[..i + 1]) == NonNoise(ls[..i]) by {
          NonNoiseStep(ls, i);
        }
      }
      i := i + 1;
    }
    assert ls[..|ls|] == ls;
  }

  /**
   * _detect_clusters: too few coordinates gives the error entry; a label
   * column shorter than the frame fails the write-back; otherwise one entry per
   * label other than noise.
   */
  function Clusters(df: seq<AnalysisRow>, dbscan: Dbscan, radius: Radius): (r: Result<ClusterReport, string>)
    requires |Labels(df, dbscan)| == |Coords(df)|
    ensures |Coords(df)| <= 2 ==> r == Ok(ClusterError(InsufficientGeoData))
  {
    var coords := Coords(df);
    NonNullKeepsAll(CoordColumn(df));
    if |coords| <= 2 then Ok(ClusterError(InsufficientGeoData))
    else
      var labels := Labels(df, dbscan);
      if |labels| != |df| then Err(LengthMismatch(|labels|, |df|))
      else Ok(Detected(ClusterList(coords, labels, ClusterLabels(labels), radius)))
  }

  /** The write-back fails exactly when some row has no coordinates to label. */
  lemma ClustersFail(df: seq<AnalysisRow>, dbscan: Dbscan, radius: Radius)
    requires |Labels(df, dbscan)| == |Coords(df)|
    ensures Clusters(df, dbscan, radius).Err? <==> |Coords(df)| > 2 && exists i :: 0 <= i < |df| && df[i].coords.None?
  {
    var col := CoordColumn(df);
    NonNullKeepsAll(col);
    assert forall i :: 0 <= i < |df| ==> col[i] == df[i].coords;
  }

  function PointTotal(cs: seq<Cluster>): nat {
    if cs == [] then 0 else cs[0].pointCount + PointTotal(cs[1..])
  }

  /**
   * One entry per distinct label other than noise, in ascending label order,
   * each counting the points with its label; together they count every point
   * that is not noise.
   */
  lemma ClustersAccount(df: seq<AnalysisRow>, dbscan: Dbscan, radius: Radius)
    requires |Labels(df, dbscan)| == |Coords(df)|
    requires Clusters(df, dbscan, radius).Ok? && Clusters(df, dbscan, radius).value.Detected?
    ensures var labels := Labels(df, dbscan);
      var ks := ClusterLabels(labels);
      var cs := Clusters(df, dbscan, radius).value.clusters;
      |cs| == |ks|
      && (forall i :: 0 <= i < |labels| && labels[i] != Noise ==> labels[i] in ks)
      && (forall k :: 0 <= k < |ks| ==> ks[k] in labels && ks[k] != Noise)
      && (forall i, j :: 0 <= i < j < |ks| ==> ks[i] < ks[j])
      && (forall k :: 0 <= k < |ks| ==> cs[k].pointCount == Count(labels, ks[k]) >= 1)
      && PointTotal(cs) == |labels| - Count(labels, Noise)
  {
    var coords := Coords(df);
    var labels := Labels(df, dbscan);
    var ks := ClusterLabels(labels);
    assert Clusters(df, dbscan, radius).value.clusters == ClusterList(coords, labels, ks, radius);
    ClusterListAccount(coords, labels, radius);
  }

  /** The entries for the labels other than noise count every point that is not noise. */
  lemma ClusterListAccount(coords: seq<Point>, labels: seq<int>, radius: Radius)
    requires |labels| == |coords|
    ensures var ks := ClusterLabels(labels);
      var cs := ClusterList(coords, labels, ks, radius);
      |cs| == |ks|
      && (forall k :: 0 <= k < |ks| ==> cs[k].pointCount == Count(labels, ks[k]) >= 1)
      && PointTotal(cs) == |labels| - Count(labels, Noise)
  {
    var ks := ClusterLabels(labels);
    PointTotalIsSumOfCounts(coords, labels, ks, radius);
    SumOfCountsIsCountIn(labels, ks);
    CountInAllBut(labels, ks, Noise);
  }

  lemma {:induction false} PointTotalIsSumOfCounts(coords: seq<Point>, labels: seq<int>, ks: seq<int>, radius: Radius)
    requires |labels| == |coords|
    ensures PointTotal(ClusterList(coords, labels, ks, radius)) == SumOfCounts(labels, ks)
  {
    if ks != [] {
      PointTotalIsSumOfCounts(coords, labels, ks[1..], radius);
      assert ClusterList(coords, labels, ks, radius)[1..] == ClusterList(coords, labels, ks[1..], radius);
    }
  }

  /** analyze_event_patterns: {} for an empty frame, else the three pattern keys. */
  function EventPatterns(df: seq<AnalysisRow>, dbscan: Dbscan, radius: Radius): (r: Result<Stats, string>)
    requires |Labels(df, dbscan)| == |Coords(df)|
  {
    if df == [] then Ok(NoStats)
    else
      var clusters :- Clusters(df, dbscan, radius);
      Ok(NoStats.(eventsPerYear := Present(EventsPerYear(df)), commonLocations := Present(CommonLocations(df, TopN)),
                  geospatialClusters := Present(clusters)))
  }

  /** A patterns record has the three pattern keys and no other. */
  predicate HasPatternKeysOnly(p: Stats) {
    p.eventsPerYear.Present? && p.commonLocations.Present? && p.geospatialClusters.Present?
    && p.(eventsPerYear := Absent, commonLocations := Absent, geospatialClusters := Absent) == NoStats
  }

  /**
   * The patterns are {} exactly for an empty frame, and otherwise have exactly
   * the three pattern keys; they fail only through the cluster write-back.
   */
  lemma EventPatternsShape(df: seq<AnalysisRow>, dbscan: Dbscan, radius: Radius)
    requires |Labels(df, dbscan)| == |Coords(df)|
    ensures var r := EventPatterns(df, dbscan, radius);
      (df == [] ==> r == Ok(NoStats))
      && (df != [] && r.Ok? ==> HasPatternKeysOnly(r.value))
      && (r.Err? <==> df != [] && Clusters(df, dbscan, radius).Err?)
  {
  }

  // ---------------------------------------------------------------------------
  // The analyzer object
  // ---------------------------------------------------------------------------

  class DisasterStatsAnalyzer {
    var stats: Stats
    var df: seq<AnalysisRow>
    /** The 'cluster' column, once _detect_clusters has written it. */
    var clusterColumn: Option<seq<int>>

    constructor(statsData: Stats)
      ensures stats == statsData && df == CreateDataFrame(statsData) && clusterColumn == None
    {
      stats := statsData;
      df := CreateDataFrame(statsData);
      clusterColumn := None;
    }

    method CalculateCoreStats() returns (r: Result<Stats, string>)
      ensures r == CoreStats(stats)
    {
      if stats.IsEmpty() {
        return Ok(ErrorOnly(NoStatisticsMessage));
      }
      var enhanced := stats;
      var deaths :- Get(enhanced.totalDeaths, "total_deaths");
      var events :- Get(enhanced.totalEvents, "total_events");
      var avgDeaths :- Divide(deaths, events);
      enhanced := enhanced.(avgDeathsPerEvent := Present(avgDeaths));
      // events is not 0 from here on, so the other two divisions succeed
      var affected :- Get(enhanced.totalAffected, "total_affected");
      enhanced := enhanced.(avgAffectedPerEvent := Present(affected as real / events as real));
      var damage :- Get(enhanced.totalDamageUsd, "total_damage_usd");
      if damage.None? {
        return Err(NoneDivisionText);
      }
      enhanced := enhanced.(avgDamagePerEventUsd := Present(damage.value as real / events as real));
      var years :- Get(enhanced.years, "years");
      enhanced := enhanced.(yearRange := Present(years.max - years.min));
      return Ok(enhanced);
    }

    /** _detect_clusters: writes the label column and collects one entry per label. */
    method DetectClusters(dbscan: Dbscan, radius: Radius) returns (r: Result<ClusterReport, string>)
      requires |Labels(df, dbscan)| == |Coords(df)|
      modifies this
      ensures stats == old(stats) && df == old(df)
      ensures r == Clusters(df, dbscan, radius)
      ensures clusterColumn == if r.Ok? && r.value.Detected? then Some(Labels(df, dbscan)) else old(clusterColumn)
    {
      var coords := Coords(df);
      if |coords| <= 2 {
        return Ok(ClusterError(InsufficientGeoData));
      }
      var epsDeg := EpsKm / 111.0;
      var labels := dbscan(coords, epsDeg, MinSamples);
      if |labels| != |df| {
        return Err(LengthMismatch(|labels|, |df|));
      }
      clusterColumn := Some(labels);
      var clusters := ClusterLoop(coords, labels, Ascending(labels), radius);
      return Ok(Detected(clusters));
    }

    method AnalyzeEventPatterns(dbscan: Dbscan, radius: Radius) returns (r: Result<Stats, string>)
      requires |Labels(df, dbscan)| == |Coords(df)|
      modifies this
      ensures stats == old(stats) && df == old(df)
      ensures r == EventPatterns(df, dbscan, radius)
      ensures clusterColumn ==
        if df != [] && Clusters(df, dbscan, radius).Ok? && Clusters(df, dbscan, radius).value.Detected?
        then Some(Labels(df, dbscan)) else old(clusterColumn)
    {
      if df == [] {
        return Ok(NoStats);
      }
      var perYear := EventsPerYear(df);
      var common := CommonLocations(df, TopN);
      var clusters :- DetectClusters(dbscan, radius);
      return Ok(NoStats.(eventsPerYear := Present(perYear), commonLocations := Present(common),
                         geospatialClusters := Present(clusters)));
    }
  }
}
