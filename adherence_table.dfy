/** The adherence table (components/AdherenceTable.js): the completion rate
    and mean adherence over the tracked sessions, and the colour bands of the
    summary cards and of each row. */
module AdherenceTable {
  import opened Js

  /** A tracked session. `adherencePct` is null when there is no load to compare. */
  datatype AdherenceRow = AdherenceRow(completed: bool, adherencePct: Option<real>)

  /** `adherence.filter(a => a.completed).length`. */
  function CompletedCount(rows: seq<AdherenceRow>): (n: nat)
    ensures n <= |rows|
    ensures n == 0 <==> forall i :: 0 <= i < |rows| ==> !rows[i].completed
    ensures n == |rows| <==> forall i :: 0 <= i < |rows| ==> rows[i].completed
  {
    if rows == [] then 0
    else
      var init := rows[..|rows| - 1];
      assert forall i :: 0 <= i < |init| ==> rows[i] == init[i];
      CompletedCount(init) + (if rows[|rows| - 1].completed then 1 else 0)
  }

  /** `total > 0 ? Math.round((completed / total) * 100) : 0`. */
  function CompletionPct(completed: nat, total: nat): int {
    if total > 0 then Round(completed as real / total as real * 100.0) else 0
  }

  /** The completion rate is a percentage: 0 when nothing was completed, 100
      when everything was. */
  lemma CompletionPctBounds(completed: nat, total: nat)
    requires completed <= total
    ensures 0 <= CompletionPct(completed, total) <= 100
    ensures completed == 0 ==> CompletionPct(completed, total) == 0
    ensures 0 < total && completed == total ==> CompletionPct(completed, total) == 100
  {
    if total > 0 {
      var share := completed as real / total as real;
      assert 0.0 <= share <= 1.0;
      RoundWithin(share * 100.0, 0, 100);
      if completed == total {
        assert share == 1.0;
        RoundOfInt(100);
      }
    }
  }

  /** More completed sessions never lower the rate. */
  lemma CompletionPctMonotone(c1: nat, c2: nat, total: nat)
    requires c1 <= c2
    ensures CompletionPct(c1, total) <= CompletionPct(c2, total)
  {
    if total > 0 {
      var t := total as real;
      assert c1 as real / t <= c2 as real / t;
      RoundMonotone(c1 as real / t * 100.0, c2 as real / t * 100.0);
    }
  }

  /** The non-null `adherencePct` values, in order. */
  function Scores(rows: seq<AdherenceRow>): (s: seq<real>)
    ensures |s| <= |rows|
    ensures |s| == 0 <==> forall i :: 0 <= i < |rows| ==> rows[i].adherencePct.None?
  {
    if rows == [] then []
    else
      var init := rows[..|rows| - 1];
      assert forall i :: 0 <= i < |init| ==> rows[i] == init[i];
      var p := rows[|rows| - 1].adherencePct;
      Scores(init) + (if p.Some? then [p.value] else [])
  }

  /** `reduce((s, a, _, arr) => s + a / arr.length, 0)` over `xs`, with
      `arr.length` as `n`. */
  function ShareSum(xs: seq<real>, n: real): real
    requires n > 0.0
  {
    if xs == [] then 0.0 else ShareSum(xs[..|xs| - 1], n) + xs[|xs| - 1] / n
  }

  /** `avgAdherence`. */
  function AvgAdherence(rows: seq<AdherenceRow>): real {
    var s := Scores(rows);
    if s == [] then 0.0 else ShareSum(s, |s| as real)
  }

  lemma {:induction false} ShareSumIsSumOver(xs: seq<real>, n: real)
    requires n > 0.0
    ensures ShareSum(xs, n) == Sum(xs) / n
  {
    if xs != [] {
      var init, x := xs[..|xs| - 1], xs[|xs| - 1];
      ShareSumIsSumOver(init, n);
      assert Sum(init) / n + x / n == (Sum(init) + x) / n;
    }
  }

  /** `avgAdherence` is the arithmetic mean of the non-null percentages, and
      0 when there are none. */
  lemma AvgIsMean(rows: seq<AdherenceRow>)
    ensures (forall i :: 0 <= i < |rows| ==> rows[i].adherencePct.None?) ==> AvgAdherence(rows) == 0.0
    ensures Scores(rows) != [] ==> AvgAdherence(rows) == Sum(Scores(rows)) / |Scores(rows)| as real
  {
    var s := Scores(rows);
    if s != [] {
      ShareSumIsSumOver(s, |s| as real);
    }
  }

  lemma {:induction false} ScoresWithin(rows: seq<AdherenceRow>, lo: real, hi: real)
    requires forall i :: 0 <= i < |rows| && rows[i].adherencePct.Some? ==> lo <= rows[i].adherencePct.value <= hi
    ensures forall j :: 0 <= j < |Scores(rows)| ==> lo <= Scores(rows)[j] <= hi
  {
    if rows != [] {
      var init := rows[..|rows| - 1];
      assert forall i :: 0 <= i < |init| ==> rows[i] == init[i];
      ScoresWithin(init, lo, hi);
    }
  }

  lemma {:induction false} SumWithin(xs: seq<real>, lo: real, hi: real)
    requires forall j :: 0 <= j < |xs| ==> lo <= xs[j] <= hi
    ensures |xs| as real * lo <= Sum(xs) <= |xs| as real * hi
  {
    if xs != [] {
      var init := xs[..|xs| - 1];
      SumWithin(init, lo, hi);
      var k := |init| as real;
      assert |xs| as real * lo == k * lo + lo;
      assert |xs| as real * hi == k * hi + hi;
    }
  }

  lemma DivideWithin(s: real, n: real, lo: real, hi: real)
    requires n > 0.0 && n * lo <= s <= n * hi
    ensures lo <= s / n <= hi
  {
    assert n * lo / n == lo && n * hi / n == hi;
  }

  lemma MeanWithin(xs: seq<real>, lo: real, hi: real)
    requires xs != []
    requires forall j :: 0 <= j < |xs| ==> lo <= xs[j] <= hi
    ensures lo <= Sum(xs) / |xs| as real <= hi
  {
    SumWithin(xs, lo, hi);
    DivideWithin(Sum(xs), |xs| as real, lo, hi);
  }

  /** The mean lies between the smallest and the largest percentage. */
  lemma AvgBetween(rows: seq<AdherenceRow>, lo: real, hi: real)
    requires forall i :: 0 <= i < |rows| && rows[i].adherencePct.Some? ==> lo <= rows[i].adherencePct.value <= hi
    requires exists i :: 0 <= i < |rows| && rows[i].adherencePct.Some?
    ensures lo <= AvgAdherence(rows) <= hi
  {
    var s := Scores(rows);
    var i :| 0 <= i < |rows| && rows[i].adherencePct.Some?;
    assert s != [];
    AvgIsMean(rows);
    ScoresWithin(rows, lo, hi);
    MeanWithin(s, lo, hi);
  }

  // ---------------------------------------------------------------------------
  // Summary

  datatype Summary = Summary(completed: nat, total: nat, pct: int, avgAdherence: real)

  /** The summary cards; `None` is the empty state shown for an empty list. */
  function Summarise(rows: seq<AdherenceRow>): (r: Option<Summary>)
    ensures r.None? <==> rows == []
    ensures r.Some? ==> r.value.total == |rows| && r.value.completed <= r.value.total
                        && 0 <= r.value.pct <= 100
  {
    if rows == [] then None
    else
      var completed := CompletedCount(rows);
      CompletionPctBounds(completed, |rows|);
      Some(Summary(completed, |rows|, CompletionPct(completed, |rows|), AvgAdherence(rows)))
  }

  // ---------------------------------------------------------------------------
  // Colours

  datatype Colour = Green | Orange | Red | Grey

  /** Green from `green` up, orange from `orange` up, red below. */
  function Band(x: real, green: real, orange: real): Colour {
    if x >= green then Green else if x >= orange then Orange else Red
  }

  function Rank(c: Colour): nat {
    match c
    case Red => 0
    case Orange => 1
    case Green => 2
    case Grey => 0
  }

  /** A higher value never gets a worse colour, and the thresholds are where
      the colour changes. */
  lemma BandMonotone(x: real, y: real, green: real, orange: real)
    requires orange <= green && x <= y
    ensures Rank(Band(x, green, orange)) <= Rank(Band(y, green, orange))
    ensures Band(x, green, orange) == Green <==> x >= green
    ensures Band(x, green, orange) == Red <==> x < orange
  {
  }

  /** The completion-rate card: green at 80 or above, orange at 60 or above. */
  function CompletionColour(pct: int): Colour {
    Band(pct as real, 80.0, 60.0)
  }

  /** The mean-adherence card: green at 85 or above, orange at 65 or above. */
  function AdherenceColour(avg: real): Colour {
    Band(avg, 85.0, 65.0)
  }

  /** A row's adherence colour: grey when null, else the adherence bands. */
  function RowColour(adh: Option<real>): (c: Colour)
    ensures c == Grey <==> adh.None?
    ensures adh.Some? ==> c == AdherenceColour(adh.value)
  {
    if adh.None? then Grey else Band(adh.value, 85.0, 65.0)
  }

  /** `Math.min(adh, 100)`: the width of the adherence bar, in percent. */
  function FillWidth(adh: real): (w: real)
    ensures w <= 100.0 && w <= adh
    ensures w == adh || w == 100.0
  {
    if adh < 100.0 then adh else 100.0
  }

  datatype Badge = Done | Missed

  /** The status badge of a row. */
  function StatusBadge(row: AdherenceRow): (b: Badge)
    ensures b == Done <==> row.completed
  {
    if row.completed then Done else Missed
  }
}
