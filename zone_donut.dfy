/** The data behind the zone donut chart (components/ZoneDonut.js): the zone
    distribution when any zone has a whole minute recorded, otherwise every
    configured zone with zero minutes. */
module ZoneDonut {
  import opened Js
  import opened Activities
  import opened Zones

  /** A slice of the donut. Rows taken from the distribution keep their
      seconds; the fallback rows have none. */
  datatype Slice = Slice(zone: string, seconds: Option<real>, minutes: int, percent: int, info: ZoneInfo)

  /** `dist.some(d => d.minutes > 0)`. */
  function HasData(dist: seq<ZoneRow>): (b: bool)
    ensures b <==> exists i :: 0 <= i < |dist| && dist[i].minutes > 0
  {
    if dist == [] then false
    else if dist[0].minutes > 0 then true
    else
      var rest := HasData(dist[1..]);
      assert forall i :: 1 <= i < |dist| ==> dist[i] == dist[1..][i - 1];
      rest
  }

  function FromRow(r: ZoneRow): Slice
  {
    Slice(r.zone, Some(r.seconds), r.minutes, r.percent, r.info)
  }

  /** `{ zone: key, minutes: 0, percent: 0, ...zone }` for every configured zone. */
  function Static(zones: seq<ZoneDef>): (s: seq<Slice>)
    ensures |s| == |zones|
    ensures forall i :: 0 <= i < |zones| ==> s[i] == Slice(zones[i].key, None, 0, 0, zones[i].info)
  {
    seq(|zones|, i requires 0 <= i < |zones| => Slice(zones[i].key, None, 0, 0, zones[i].info))
  }

  /** `displayData`. */
  function DisplayData(dist: seq<ZoneRow>, zones: seq<ZoneDef>): (s: seq<Slice>)
  {
    if HasData(dist) then seq(|dist|, i requires 0 <= i < |dist| => FromRow(dist[i])) else Static(zones)
  }

  /** With data the slices are exactly the distribution rows; without, one
      zero slice per configured zone. */
  lemma DisplayCases(dist: seq<ZoneRow>, zones: seq<ZoneDef>)
    ensures HasData(dist) ==>
              (|DisplayData(dist, zones)| == |dist|
               && forall i :: 0 <= i < |dist| ==> DisplayData(dist, zones)[i] == FromRow(dist[i]))
    ensures !HasData(dist) ==>
              (|DisplayData(dist, zones)| == |zones|
               && forall i :: 0 <= i < |zones| ==>
                    DisplayData(dist, zones)[i].zone == zones[i].key
                    && DisplayData(dist, zones)[i].minutes == 0 && DisplayData(dist, zones)[i].percent == 0)
  {
  }

  /** Under 30 seconds rounds to 0 minutes, so zones recorded for less than
      half a minute each count as no data even though seconds were recorded. */
  lemma ShortZonesAreNoData(acts: seq<Activity>, zones: seq<ZoneDef>)
    requires NonNegativeTimes(acts)
    requires forall i :: 0 <= i < |zones| ==> ZoneSeconds(acts, zones[i].key) < 30.0
    ensures !HasData(Distribution(acts, zones))
  {
    var rows := Distribution(acts, zones);
    forall i | 0 <= i < |zones| ensures rows[i].minutes == 0 {
      ZoneSecondsNonNegative(acts, zones[i].key);
      UnderHalfAMinute(rows[i].seconds);
    }
  }

  lemma UnderHalfAMinute(s: real)
    requires 0.0 <= s < 30.0
    ensures Round(s / 60.0) == 0
  {
    assert 0.0 <= s / 60.0 < 0.5;
  }

  /** Either way the chart shows one slice per configured zone, in zone order,
      with the minutes the distribution computed. */
  lemma SlicePerZone(acts: seq<Activity>, zones: seq<ZoneDef>)
    requires NonNegativeTimes(acts)
    ensures var s := DisplayData(Distribution(acts, zones), zones);
            |s| == |zones|
            && forall i :: 0 <= i < |zones| ==>
                 s[i].zone == zones[i].key && s[i].info == zones[i].info
                 && s[i].minutes == Distribution(acts, zones)[i].minutes
  {
    DistributionBounds(acts, zones);
  }
}
