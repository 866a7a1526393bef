/** Time in power zones as lib/pmc.js `calculateZoneDistribution` computes
    it: the seconds every activity spent in each configured zone are added
    up per zone, then turned into whole minutes and a whole-number share of
    the total. */
module Zones {
  import opened Js
  import opened Activities

  /** The display fields of a configured zone, copied into its row. */
  datatype ZoneInfo = ZoneInfo(name: string, min: real, max: real, color: string)

  /** One entry of the `zones` object, in key order. */
  datatype ZoneDef = ZoneDef(key: string, info: ZoneInfo)

  datatype ZoneRow = ZoneRow(zone: string, seconds: real, minutes: int, percent: int, info: ZoneInfo)

  function ZoneKeys(zones: seq<ZoneDef>): (ks: set<string>)
    ensures forall z :: z in ks <==> exists i :: 0 <= i < |zones| && zones[i].key == z
  {
    set i | 0 <= i < |zones| :: zones[i].key
  }

  /** What one activity adds to zone `z`: nothing without `zone_times`,
      nothing when the zone is not among its keys, else `zone_times[z] || 0`. */
  function Contribution(a: Activity, z: string): real
  {
    match a.zoneTimes
    case None => 0.0
    case Some(zt) => if z in zt then OrZero(zt[z]) else 0.0
  }

  /** Seconds spent in zone `z` over all activities. */
  function ZoneSeconds(acts: seq<Activity>, z: string): real
  {
    if acts == [] then 0.0 else ZoneSeconds(acts[..|acts| - 1], z) + Contribution(acts[|acts| - 1], z)
  }

  /** The per-zone seconds, in zone order. */
  function Seconds(acts: seq<Activity>, zones: seq<ZoneDef>): (secs: seq<real>)
    ensures |secs| == |zones|
    ensures forall i :: 0 <= i < |zones| ==> secs[i] == ZoneSeconds(acts, zones[i].key)
  {
    seq(|zones|, i requires 0 <= i < |zones| => ZoneSeconds(acts, zones[i].key))
  }

  /** `total > 0 ? Math.round((seconds / total) * 100) : 0`. */
  function Percent(seconds: real, total: real): int
  {
    if total > 0.0 then Round(seconds / total * 100.0) else 0
  }

  function RowOf(z: ZoneDef, seconds: real, total: real): ZoneRow
  {
    ZoneRow(z.key, seconds, Round(seconds / 60.0), Percent(seconds, total), z.info)
  }

  /** The result of `calculateZoneDistribution(activities, zones)`: one row
      per configured zone, in key order. */
  function Distribution(acts: seq<Activity>, zones: seq<ZoneDef>): (rows: seq<ZoneRow>)
    ensures |rows| == |zones|
    ensures forall i :: 0 <= i < |zones| ==>
              rows[i].zone == zones[i].key && rows[i].info == zones[i].info
              && rows[i].seconds == ZoneSeconds(acts, zones[i].key)
              && rows[i].minutes == Round(rows[i].seconds / 60.0)
              && rows[i].percent == Percent(rows[i].seconds, Sum(Seconds(acts, zones)))
  {
    var secs := Seconds(acts, zones);
    seq(|zones|, i requires 0 <= i < |zones| => RowOf(zones[i], secs[i], Sum(secs)))
  }

  lemma SumSnoc(xs: seq<real>, i: nat)
    requires i < |xs|
    ensures Sum(xs[..i + 1]) == Sum(xs[..i]) + xs[i]
  {
    assert xs[..i + 1][..i] == xs[..i];
  }

  /** `Object.keys(zones).forEach(z => dist[z] = 0)`. */
  method ZeroTotals(zones: seq<ZoneDef>) returns (dist: map<string, real>)
    ensures dist.Keys == ZoneKeys(zones)
    ensures forall z :: z in dist ==> dist[z] == 0.0
  {
    dist := map[];
    for i := 0 to |zones|
      invariant dist.Keys == ZoneKeys(zones[..i])
      invariant forall z :: z in dist ==> dist[z] == 0.0
    {
      dist := dist[zones[i].key := 0.0];
    }
    assert zones[..|zones|] == zones;
  }

  /** The body of the `activities.forEach`: each zone key of the activity
      that is already in `dist` gets `zone_times[z] || 0` added. */
  method AddZoneTimes(dist: map<string, real>, a: Activity) returns (dist': map<string, real>)
    ensures dist'.Keys == dist.Keys
    ensures forall z :: z in dist' ==> dist'[z] == dist[z] + Contribution(a, z)
  {
    dist' := dist;
    if a.zoneTimes.None? {
      return;
    }
    var zt := a.zoneTimes.value;
    var rest := zt.Keys;
    while rest != {}
      invariant rest <= zt.Keys
      invariant dist'.Keys == dist.Keys
      invariant forall z :: z in dist' ==>
                  dist'[z] == dist[z] + (if z in zt && z !in rest then OrZero(zt[z]) else 0.0)
      decreases rest
    {
      var z :| z in rest;
      if z in dist' {
        dist' := dist'[z := dist'[z] + OrZero(zt[z])];
      }
      rest := rest - {z};
    }
  }

  /** `Object.values(dist).reduce((a, b) => a + b, 0)`, the values taken in
      zone order. */
  method TotalOf(dist: map<string, real>, zones: seq<ZoneDef>, ghost secs: seq<real>) returns (total: real)
    requires |secs| == |zones|
    requires forall i :: 0 <= i < |zones| ==> zones[i].key in dist && dist[zones[i].key] == secs[i]
    ensures total == Sum(secs)
  {
    total := 0.0;
    for i := 0 to |zones|
      invariant total == Sum(secs[..i])
    {
      total := total + dist[zones[i].key];
      SumSnoc(secs, i);
    }
    assert secs[..|zones|] == secs;
  }

  /** `calculateZoneDistribution(activities, zones)`. */
  method CalculateZoneDistribution(acts: seq<Activity>, zones: seq<ZoneDef>) returns (rows: seq<ZoneRow>)
    ensures rows == Distribution(acts, zones)
  {
    var dist := ZeroTotals(zones);
    for i := 0 to |acts|
      invariant dist.Keys == ZoneKeys(zones)
      invariant forall z :: z in dist ==> dist[z] == ZoneSeconds(acts[..i], z)
    {
      assert acts[..i + 1][..i] == acts[..i];
      dist := AddZoneTimes(dist, acts[i]);
    }
    assert acts[..|acts|] == acts;
    var total := TotalOf(dist, zones, Seconds(acts, zones));
    rows := seq(|zones|, i requires 0 <= i < |zones| => RowOf(zones[i], dist[zones[i].key], total));
  }

  // ---------------------------------------------------------------------------
  // What an activity contributes

  /** An activity that adds nothing to any configured zone leaves the
      distribution as it was. */
  lemma NoContribution(acts: seq<Activity>, a: Activity, zones: seq<ZoneDef>)
    requires forall i :: 0 <= i < |zones| ==> Contribution(a, zones[i].key) == 0.0
    ensures Distribution(acts + [a], zones) == Distribution(acts, zones)
  {
    assert (acts + [a])[..|acts|] == acts;
    assert Seconds(acts + [a], zones) == Seconds(acts, zones);
  }

  /** Activities without `zone_times` contribute nothing. */
  lemma WithoutZoneTimes(acts: seq<Activity>, a: Activity, zones: seq<ZoneDef>)
    requires a.zoneTimes.None?
    ensures Distribution(acts + [a], zones) == Distribution(acts, zones)
  {
    NoContribution(acts, a, zones);
  }

  /** Zone keys that are not configured zones are ignored. */
  lemma UnknownZonesIgnored(acts: seq<Activity>, a: Activity, zones: seq<ZoneDef>)
    requires a.zoneTimes.Some? && a.zoneTimes.value.Keys !! ZoneKeys(zones)
    ensures Distribution(acts + [a], zones) == Distribution(acts, zones)
  {
    forall i | 0 <= i < |zones| ensures Contribution(a, zones[i].key) == 0.0 {
      assert zones[i].key in ZoneKeys(zones);
    }
    NoContribution(acts, a, zones);
  }

  // ---------------------------------------------------------------------------
  // Bounds

  /** Every zone time that is recorded is non-negative. */
  predicate NonNegativeTimes(acts: seq<Activity>) {
    forall i, z :: 0 <= i < |acts| && acts[i].zoneTimes.Some? && z in acts[i].zoneTimes.value ==>
      0.0 <= OrZero(acts[i].zoneTimes.value[z])
  }

  lemma {:induction false} ZoneSecondsNonNegative(acts: seq<Activity>, z: string)
    requires NonNegativeTimes(acts)
    ensures 0.0 <= ZoneSeconds(acts, z)
  {
    if acts != [] {
      var init := acts[..|acts| - 1];
      assert forall i :: 0 <= i < |init| ==> init[i] == acts[i];
      ZoneSecondsNonNegative(init, z);
    }
  }

  lemma {:induction false} ElementBelowSum(xs: seq<real>, i: nat)
    requires i < |xs| && forall j :: 0 <= j < |xs| ==> 0.0 <= xs[j]
    ensures xs[i] <= Sum(xs)
  {
    var init := xs[..|xs| - 1];
    SumNonNegative(init);
    if i < |xs| - 1 {
      ElementBelowSum(init, i);
    }
  }

  /** A share of a positive total no larger than the total is between 0 and 100. */
  lemma ShareBounds(s: real, total: real)
    requires 0.0 <= s <= total && 0.0 < total
    ensures 0.0 <= s / total * 100.0 <= 100.0
  {
    assert s / total <= 1.0;
  }

  /** With non-negative zone times, minutes are non-negative and every
      percentage lies between 0 and 100. */
  lemma DistributionBounds(acts: seq<Activity>, zones: seq<ZoneDef>)
    requires NonNegativeTimes(acts)
    ensures forall i :: 0 <= i < |zones| ==>
              0.0 <= Distribution(acts, zones)[i].seconds
              && 0 <= Distribution(acts, zones)[i].minutes
              && 0 <= Distribution(acts, zones)[i].percent <= 100
  {
    var secs := Seconds(acts, zones);
    var rows := Distribution(acts, zones);
    forall i | 0 <= i < |zones| ensures 0.0 <= secs[i] {
      ZoneSecondsNonNegative(acts, zones[i].key);
    }
    forall i | 0 <= i < |zones| ensures 0.0 <= rows[i].seconds && 0 <= rows[i].minutes && 0 <= rows[i].percent <= 100 {
      RoundWithin(secs[i] / 60.0, 0, Round(secs[i] / 60.0) + 1);
      if Sum(secs) > 0.0 {
        ElementBelowSum(secs, i);
        ShareBounds(secs[i], Sum(secs));
        RoundWithin(secs[i] / Sum(secs) * 100.0, 0, 100);
      }
    }
  }

  /** When nothing was recorded in any zone, every percentage is 0. */
  lemma ZeroTotalZeroPercent(acts: seq<Activity>, zones: seq<ZoneDef>)
    requires Sum(Seconds(acts, zones)) <= 0.0
    ensures forall i :: 0 <= i < |zones| ==> Distribution(acts, zones)[i].percent == 0
  {
  }

  // ---------------------------------------------------------------------------
  // The percentages add up to about 100

  function Shares(secs: seq<real>, total: real): (ps: seq<real>)
    requires total > 0.0
    ensures |ps| == |secs|
  {
    if secs == [] then [] else Shares(secs[..|secs| - 1], total) + [secs[|secs| - 1] / total * 100.0]
  }

  lemma {:induction false} SharesSum(secs: seq<real>, total: real)
    requires total > 0.0
    ensures Sum(Shares(secs, total)) == Sum(secs) / total * 100.0
  {
    if secs != [] {
      var init := secs[..|secs| - 1];
      SharesSum(init, total);
      assert Shares(secs, total)[..|secs| - 1] == Shares(init, total);
    }
  }

  function PercentsOf(rows: seq<ZoneRow>): int
  {
    if rows == [] then 0 else PercentsOf(rows[..|rows| - 1]) + rows[|rows| - 1].percent
  }

  lemma {:induction false} PercentsAreRoundedShares(rows: seq<ZoneRow>, secs: seq<real>, total: real)
    requires total > 0.0 && |rows| == |secs|
    requires forall i :: 0 <= i < |rows| ==> rows[i].percent == Round(secs[i] / total * 100.0)
    ensures PercentsOf(rows) == SumOfRounds(Shares(secs, total))
  {
    if rows != [] {
      var n := |rows| - 1;
      PercentsAreRoundedShares(rows[..n], secs[..n], total);
      assert secs[..n] == secs[..|secs| - 1];
      assert Shares(secs, total)[n] == secs[n] / total * 100.0;
      assert Shares(secs, total)[..n] == Shares(secs[..n], total);
    }
  }

  lemma SharesOfTotal(secs: seq<real>)
    requires Sum(secs) > 0.0
    ensures Sum(Shares(secs, Sum(secs))) == 100.0
  {
    var total := Sum(secs);
    SharesSum(secs, total);
    assert total / total == 1.0;
  }

  lemma DistributionPercents(acts: seq<Activity>, zones: seq<ZoneDef>)
    requires Sum(Seconds(acts, zones)) > 0.0
    ensures PercentsOf(Distribution(acts, zones)) == SumOfRounds(Shares(Seconds(acts, zones), Sum(Seconds(acts, zones))))
  {
    var secs := Seconds(acts, zones);
    var total := Sum(secs);
    var rows := Distribution(acts, zones);
    forall i | 0 <= i < |zones| ensures rows[i].percent == Round(secs[i] / total * 100.0) {
      assert rows[i].percent == Percent(secs[i], total);
    }
    PercentsAreRoundedShares(rows, secs, total);
  }

  /** When some time was recorded, the whole-number percentages add up to
      100, give or take half a point per zone. */
  lemma PercentsNear100(acts: seq<Activity>, zones: seq<ZoneDef>)
    requires Sum(Seconds(acts, zones)) > 0.0
    ensures var n := |zones| as real / 2.0;
            100.0 - n <= PercentsOf(Distribution(acts, zones)) as real <= 100.0 + n
  {
    var shares := Shares(Seconds(acts, zones), Sum(Seconds(acts, zones)));
    DistributionPercents(acts, zones);
    SharesOfTotal(Seconds(acts, zones));
    SumOfRoundsNear(shares);
  }
}
