/**
 * The dictionaries that travel between the retrieval agent, the statistics
 * analyzer, the pipeline and the report collaborator. A Python dict with a
 * known set of keys is a record with one Field per key, so that key presence
 * (`in`, `.get`, KeyError, `{**a, **b}`) reads the same as in the source.
 */
module Records {
  import opened Wrappers

  /** One key of a dict: absent, or present with its value. */
  datatype Field<+T> = Absent | Present(val: T) {
    /** `{**a, **b}` on one key: b's value wins when b has the key. */
    function Or(fallback: Field<T>): Field<T> {
      if Present? then this else fallback
    }
  }

  /** str() of the KeyError that `d[key]` raises. */
  function KeyErrorText(key: string): string {
    "'" + key + "'"
  }

  /** `d[key]`: the value, or the KeyError. */
  function Get<T>(f: Field<T>, key: string): Result<T, string> {
    if f.Present? then Ok(f.val) else Err(KeyErrorText(key))
  }

  /** {"min": ..., "max": ...} */
  datatype YearSpan = YearSpan(min: int, max: int)

  /** One entry of sample_events: {"EVENT_NAME", "START_YEAR", "LOCATION"}. */
  datatype SampleEvent = SampleEvent(eventName: Option<string>, startYear: Option<int>, location: Option<string>)

  /** {"point_count", "centroid": {"lat", "lon"}, "radius_km"} */
  datatype Cluster = Cluster(pointCount: nat, lat: real, lon: real, radiusKm: real)

  /** geospatial_clusters: {"detected_clusters": [...]}, {"error": ...} or {}. */
  datatype ClusterReport = Detected(clusters: seq<Cluster>) | ClusterError(message: string) | NoClusters

  /**
   * The statistics dict, under every key any of its producers writes:
   * get_summary_stats, calculate_core_stats, analyze_event_patterns and the
   * pipeline's merge and report preparation.
   */
  datatype Stats = Stats(
    message: Field<string>,
    error: Field<string>,
    totalEvents: Field<int>,
    countries: Field<seq<Option<string>>>,
    years: Field<YearSpan>,
    disasterTypes: Field<seq<Option<string>>>,
    totalDeaths: Field<int>,
    totalAffected: Field<int>,
    totalDamageUsd: Field<Option<int>>,
    sampleEvents: Field<seq<SampleEvent>>,
    avgDeathsPerEvent: Field<real>,
    avgAffectedPerEvent: Field<real>,
    avgDamagePerEventUsd: Field<real>,
    yearRange: Field<int>,
    eventsPerYear: Field<seq<(int, nat)>>,
    commonLocations: Field<seq<string>>,
    geospatialClusters: Field<ClusterReport>,
    eventPatterns: Field<Stats>)
  {
    /** `not d`: the dict has no key at all. */
    predicate IsEmpty() {
      this == NoStats
    }

    /** `{**this, **other}`: every key of either, other's value winning. */
    function Merge(other: Stats): (r: Stats)
      ensures other.IsEmpty() ==> r == this
      ensures IsEmpty() ==> r == other
      ensures r.IsEmpty() <==> IsEmpty() && other.IsEmpty()
    {
      Stats(
        other.message.Or(message), other.error.Or(error), other.totalEvents.Or(totalEvents),
        other.countries.Or(countries), other.years.Or(years), other.disasterTypes.Or(disasterTypes),
        other.totalDeaths.Or(totalDeaths), other.totalAffected.Or(totalAffected),
        other.totalDamageUsd.Or(totalDamageUsd), other.sampleEvents.Or(sampleEvents),
        other.avgDeathsPerEvent.Or(avgDeathsPerEvent), other.avgAffectedPerEvent.Or(avgAffectedPerEvent),
        other.avgDamagePerEventUsd.Or(avgDamagePerEventUsd), other.yearRange.Or(yearRange),
        other.eventsPerYear.Or(eventsPerYear), other.commonLocations.Or(commonLocations),
        other.geospatialClusters.Or(geospatialClusters), other.eventPatterns.Or(eventPatterns))
    }
  }

  /** {} */
  const NoStats: Stats := Stats(
    Absent, Absent, Absent, Absent, Absent, Absent, Absent, Absent, Absent,
    Absent, Absent, Absent, Absent, Absent, Absent, Absent, Absent, Absent)

  /** {"message": m} */
  function MessageOnly(m: string): (r: Stats)
    ensures !r.IsEmpty() && r.message == Present(m)
  {
    NoStats.(message := Present(m))
  }

  /** {"error": m} */
  function ErrorOnly(m: string): (r: Stats)
    ensures !r.IsEmpty() && r.error == Present(m)
  {
    NoStats.(error := Present(m))
  }
}
