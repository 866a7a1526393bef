/** The wellness cards (components/WellnessSection.js): the latest reading of
    each metric and its change over the last seven entries, with the arrow
    that says whether the change is good. */
module WellnessSection {
  import opened Js
  import opened WellnessApi

  /** `{}`: a row with every reading absent. */
  const EmptyRow := WellnessRow(None, None, None, None)

  /** `wellness[wellness.length - 1] || {}`. */
  function Latest(w: seq<WellnessRow>): (r: WellnessRow)
    ensures w == [] ==> r == EmptyRow
    ensures w != [] ==> r == w[|w| - 1]
  {
    if w == [] then EmptyRow else w[|w| - 1]
  }

  /** `wellness[wellness.length - 8] || {}`: the entry seven before the latest. */
  function Prev(w: seq<WellnessRow>): (r: WellnessRow)
    ensures |w| < 8 ==> r == EmptyRow
    ensures |w| >= 8 ==> r == w[|w| - 8]
  {
    if |w| >= 8 then w[|w| - 8] else EmptyRow
  }

  /** `a && b ? Math.round(a - b) : null`, for heart rate and HRV. */
  function RoundedTrend(a: Num, b: Num): (t: Option<int>)
    ensures t.Some? <==> Truthy(a) && Truthy(b)
    ensures t.Some? ==> a.value - b.value - 0.5 < t.value as real <= a.value - b.value + 0.5
  {
    if Truthy(a) && Truthy(b) then Some(Round(a.value - b.value)) else None
  }

  /** `x.toFixed(1)` read back as a number: halves are rounded away from zero. */
  function ToFixed1(x: real): (r: real)
    ensures x - 0.05 <= r <= x + 0.05
    ensures x >= 0.0 ==> r >= 0.0
    ensures x <= 0.0 ==> r <= 0.0
  {
    if x < 0.0 then -Round1(-x) else Round1(x)
  }

  /** `a && b ? (a - b).toFixed(1) : null`, for weight. */
  function WeightTrend(a: Num, b: Num): (t: Option<real>)
    ensures t.Some? <==> Truthy(a) && Truthy(b)
    ensures t.Some? ==> a.value - b.value - 0.05 <= t.value <= a.value - b.value + 0.05
  {
    if Truthy(a) && Truthy(b) then Some(ToFixed1(a.value - b.value)) else None
  }

  datatype Trends = Trends(rhr: Option<int>, hrv: Option<int>, weight: Option<real>)

  function TrendsOf(w: seq<WellnessRow>): Trends {
    var latest, prev := Latest(w), Prev(w);
    Trends(RoundedTrend(latest.rhr, prev.rhr), RoundedTrend(latest.hrv, prev.hrv), WeightTrend(latest.weight, prev.weight))
  }

  /** With fewer than eight entries there is nothing to compare against. */
  lemma ShortHistoryHasNoTrend(w: seq<WellnessRow>)
    requires |w| < 8
    ensures TrendsOf(w) == Trends(None, None, None)
  {
  }

  /** With eight or more entries the trends compare the latest entry with
      the one seven before it. */
  lemma TrendsCompareSevenBack(w: seq<WellnessRow>)
    requires |w| >= 8
    ensures TrendsOf(w).rhr == RoundedTrend(w[|w| - 1].rhr, w[|w| - 8].rhr)
    ensures TrendsOf(w).hrv == RoundedTrend(w[|w| - 1].hrv, w[|w| - 8].hrv)
    ensures TrendsOf(w).weight == WeightTrend(w[|w| - 1].weight, w[|w| - 8].weight)
  {
  }

  datatype Direction = Up | Down | Neutral

  /** Resting heart rate and weight: a fall is good. */
  function LowerIsBetter(t: Option<real>): (d: Direction)
    ensures d == Up <==> t.Some? && t.value < 0.0
    ensures d == Down <==> t.Some? && t.value > 0.0
    ensures d == Neutral <==> t.None? || t.value == 0.0
  {
    if t.Some? && t.value < 0.0 then Up else if t.Some? && t.value > 0.0 then Down else Neutral
  }

  /** HRV: a rise is good. */
  function HigherIsBetter(t: Option<real>): (d: Direction)
    ensures d == Up <==> t.Some? && t.value > 0.0
    ensures d == Down <==> t.Some? && t.value < 0.0
    ensures d == Neutral <==> t.None? || t.value == 0.0
  {
    if t.Some? && t.value > 0.0 then Up else if t.Some? && t.value < 0.0 then Down else Neutral
  }

  function AsReal(t: Option<int>): Option<real> {
    if t.Some? then Some(t.value as real) else None
  }

  /** The same change gets opposite arrows on a lower-is-better and a
      higher-is-better card. */
  lemma DirectionsMirror(t: Option<real>)
    ensures LowerIsBetter(t) == Up <==> HigherIsBetter(t) == Down
    ensures LowerIsBetter(t) == Down <==> HigherIsBetter(t) == Up
    ensures LowerIsBetter(t) == Neutral <==> HigherIsBetter(t) == Neutral
  {
  }

  /** The trend text: a dash for null, otherwise the value with a '+' only
      when positive. */
  datatype TrendLabel = Dash | Signed(plus: bool, value: real)

  function Label(t: Option<real>): (l: TrendLabel)
    ensures l == Dash <==> t.None?
    ensures l.Signed? ==> l.value == t.value && (l.plus <==> t.value > 0.0)
  {
    if t.None? then Dash else Signed(t.value > 0.0, t.value)
  }

  /** The three cards' arrows. */
  datatype Arrows = Arrows(rhr: Direction, hrv: Direction, weight: Direction)

  function ArrowsOf(w: seq<WellnessRow>): Arrows {
    var t := TrendsOf(w);
    Arrows(LowerIsBetter(AsReal(t.rhr)), HigherIsBetter(AsReal(t.hrv)), LowerIsBetter(t.weight))
  }

  /** A heart rate seven entries ago that is higher by a whole beat or more
      shows a good arrow; a resting rate that did not change shows none. */
  lemma FallingHeartRateIsGood(w: seq<WellnessRow>)
    requires |w| >= 8 && Truthy(w[|w| - 1].rhr) && Truthy(w[|w| - 8].rhr)
    ensures w[|w| - 1].rhr.value <= w[|w| - 8].rhr.value - 1.0 ==> ArrowsOf(w).rhr == Up
    ensures w[|w| - 1].rhr.value == w[|w| - 8].rhr.value ==> ArrowsOf(w).rhr == Neutral
  {
    TrendsCompareSevenBack(w);
    var d := w[|w| - 1].rhr.value - w[|w| - 8].rhr.value;
    if d == 0.0 {
      RoundOfInt(0);
    }
  }
}
