/** The performance-management chart of lib/pmc.js: fitness (CTL), fatigue
    (ATL) and form (TSB) as exponentially weighted averages of daily training
    stress, their projection into the future, and the form classifier.
    The smoothing factors are the parameters `kc` (fitness) and `ka` (fatigue). */
module Pmc {
  import opened Js
  import opened Grouping
  import opened Ewma

  /** One input day `{ date, tss }`, the date as a day number. */
  datatype Day = Day(date: int, tss: Num)

  /** One chart point. `projected` is true for the points of `projectPMC`;
      the points of `calculatePMC` carry no such key, modelled as false. */
  datatype Point = Point(date: int, tss: int, ctl: real, atl: real, tsb: real, projected: bool)

  /** The two running averages the recurrence carries from day to day. */
  datatype Load = Load(ctl: real, atl: real)

  function DateOf(d: Day): int {
    d.date
  }

  /** `day.tss || 0`. */
  function Stress(d: Day): real
  {
    OrZero(d.tss)
  }

  /** The daily stresses of `days`, in order. */
  function Stresses(days: seq<Day>): (ts: seq<real>)
    ensures |ts| == |days|
    ensures forall i :: 0 <= i < |days| ==> ts[i] == Stress(days[i])
  {
    if days == [] then [] else Stresses(days[..|days| - 1]) + [Stress(days[|days| - 1])]
  }

  lemma StressesAppend(a: seq<Day>, b: seq<Day>)
    ensures Stresses(a + b) == Stresses(a) + Stresses(b)
  {
    assert forall i :: 0 <= i < |a + b| ==> Stresses(a + b)[i] == (Stresses(a) + Stresses(b))[i];
  }

  /** Fitness and fatigue after folding `days` over `start`. */
  function Final(start: Load, days: seq<Day>, kc: real, ka: real): Load
  {
    Load(Run(start.ctl, Stresses(days), kc), Run(start.atl, Stresses(days), ka))
  }

  /** The point emitted for a day once the averages have reached `s`:
      `tsb` is taken from the unrounded averages and only then rounded. */
  function Emit(d: Day, s: Load, projected: bool): Point
  {
    Point(d.date, Round(Stress(d)), Round1(s.ctl), Round1(s.atl), Round1(s.ctl - s.atl), projected)
  }

  /** The points of a run of the recurrence from `start` over `days`. */
  function Series(start: Load, days: seq<Day>, kc: real, ka: real, projected: bool): (ps: seq<Point>)
    ensures |ps| == |days|
  {
    if days == [] then []
    else Series(start, days[..|days| - 1], kc, ka, projected)
           + [Emit(days[|days| - 1], Final(start, days, kc, ka), projected)]
  }

  /** Point `i` of a run is the day's point after the first `i + 1` days. */
  lemma {:induction false} SeriesAt(start: Load, days: seq<Day>, kc: real, ka: real, projected: bool, i: nat)
    requires i < |days|
    ensures Series(start, days, kc, ka, projected)[i]
         == Emit(days[i], Final(start, days[..i + 1], kc, ka), projected)
  {
    if i < |days| - 1 {
      SeriesAt(start, days[..|days| - 1], kc, ka, projected, i);
      assert days[..|days| - 1][..i + 1] == days[..i + 1];
    } else {
      assert days[..i + 1] == days;
    }
  }

  /** Extending a run by its next day adds one day to each average and one point. */
  lemma SeriesSnoc(start: Load, days: seq<Day>, kc: real, ka: real, projected: bool, i: nat)
    requires i < |days|
    ensures Stresses(days[..i + 1]) == Stresses(days[..i]) + [Stress(days[i])]
    ensures Series(start, days[..i + 1], kc, ka, projected)
         == Series(start, days[..i], kc, ka, projected)
            + [Emit(days[i], Final(start, days[..i + 1], kc, ka), projected)]
  {
    assert days[..i + 1][..i] == days[..i];
  }

  /** The `map` callback of `calculatePMC` and `projectPMC`: the closure
      variables `ctl` and `atl` advance one day per input element. */
  method Fold(start: Load, days: seq<Day>, kc: real, ka: real, projected: bool) returns (points: seq<Point>)
    ensures points == Series(start, days, kc, ka, projected)
  {
    var ctl, atl := start.ctl, start.atl;
    points := [];
    for i := 0 to |days|
      invariant ctl == Run(start.ctl, Stresses(days[..i]), kc)
      invariant atl == Run(start.atl, Stresses(days[..i]), ka)
      invariant points == Series(start, days[..i], kc, ka, projected)
    {
      SeriesSnoc(start, days, kc, ka, projected, i);
      var tss := OrZero(days[i].tss);
      ctl := Toward(ctl, tss, kc);
      atl := Toward(atl, tss, ka);
      var tsb := ctl - atl;
      points := points + [Point(days[i].date, Round(tss), Round1(ctl), Round1(atl), Round1(tsb), projected)];
    }
    assert days[..|days|] == days;
  }

  /** `calculatePMC(days)`: no points for a null or empty input; otherwise the
      days sorted by date and one point per day, the averages starting at 0. */
  method CalculatePmc(days: Option<seq<Day>>, kc: real, ka: real) returns (points: seq<Point>)
    ensures days.None? || days.value == [] ==> points == []
    ensures days.Some? ==> |points| == |days.value|
    ensures forall i, j :: 0 <= i < j < |points| ==> points[i].date <= points[j].date
    ensures forall i :: 0 <= i < |points| ==> !points[i].projected
    ensures days.Some? ==>
              points == Series(Load(0.0, 0.0), SortBy(days.value, DateOf), kc, ka, false)
  {
    if days.None? || |days.value| == 0 {
      return [];
    }
    var sorted := SortBy(days.value, DateOf);
    assert |sorted| == |multiset(sorted)| == |days.value|;
    points := Fold(Load(0.0, 0.0), sorted, kc, ka, false);
    forall i | 0 <= i < |points| ensures points[i].date == sorted[i].date && !points[i].projected {
      SeriesAt(Load(0.0, 0.0), sorted, kc, ka, false, i);
    }
  }

  /** `projectPMC(historicalPMC, futureDays)`: no points without history;
      otherwise the recurrence continues from the last point's already rounded
      `ctl` and `atl`, one projected point per future day. */
  method ProjectPmc(history: Option<seq<Point>>, future: seq<Day>, kc: real, ka: real) returns (points: seq<Point>)
    ensures history.None? || history.value == [] ==> points == []
    ensures history.Some? && history.value != [] ==> |points| == |future|
    ensures forall i :: 0 <= i < |points| ==> points[i].projected && points[i].date == future[i].date
    ensures history.Some? && history.value != [] ==>
              var last := history.value[|history.value| - 1];
              points == Series(Load(last.ctl, last.atl), future, kc, ka, true)
  {
    if history.None? || |history.value| == 0 {
      return [];
    }
    var last := history.value[|history.value| - 1];
    points := Fold(Load(last.ctl, last.atl), future, kc, ka, true);
    forall i | 0 <= i < |points| ensures points[i].projected && points[i].date == future[i].date {
      SeriesAt(Load(last.ctl, last.atl), future, kc, ka, true, i);
    }
  }

  // ---------------------------------------------------------------------------
  // Properties of the chart

  /** Every point of a history whose stresses lie in [0, m] shows fitness and
      fatigue in [0, m] and form in [-m, m], up to the rounding to one decimal. */
  lemma HistoryWithin(days: seq<Day>, kc: real, ka: real, m: real, i: nat)
    requires Factor(kc) && Factor(ka) && 0.0 <= m
    requires forall j :: 0 <= j < |days| ==> 0.0 <= Stress(days[j]) <= m
    requires i < |days|
    ensures var p := Series(Load(0.0, 0.0), days, kc, ka, false)[i];
            -0.05 < p.ctl <= m + 0.05 && -0.05 < p.atl <= m + 0.05 && -m - 0.05 < p.tsb <= m + 0.05
  {
    SeriesAt(Load(0.0, 0.0), days, kc, ka, false, i);
    RunWithin(0.0, Stresses(days[..i + 1]), kc, m);
    RunWithin(0.0, Stresses(days[..i + 1]), ka, m);
  }

  /** `n` planned days of the same stress `t`, dated 0 to n - 1. */
  function Sustained(t: real, n: nat): (days: seq<Day>)
    ensures |days| == n
    ensures Stresses(days) == Constant(t, n)
  {
    if n == 0 then [] else Sustained(t, n - 1) + [Day(n - 1, Some(t))]
  }

  /** Under a sustained daily stress, form settles to 0 from any start: it is
      the difference of the two decaying gaps between the averages and the stress. */
  lemma FormSettles(start: Load, t: real, n: nat, kc: real, ka: real)
    requires Factor(kc) && Factor(ka)
    ensures var s := Final(start, Sustained(t, n), kc, ka);
            s.ctl - s.atl == Decay(start.ctl - t, kc, n) - Decay(start.atl - t, ka, n)
    ensures var s := Final(start, Sustained(t, n), kc, ka);
            start.ctl == start.atl == t ==> s.ctl - s.atl == 0.0
  {
    SustainedLoadConverges(start.ctl, t, n, kc);
    SustainedLoadConverges(start.atl, t, n, ka);
    if start.ctl == start.atl == t {
      DecayShrinks(0.0, kc, n);
      DecayShrinks(0.0, ka, n);
    }
  }

  /** The projection starts from the last point's rounded averages rather than
      from the exact ones. The difference this makes to the projected
      averages is at most the rounding error, 0.05, and shrinks every day. */
  lemma ProjectionDrift(history: seq<Day>, future: seq<Day>, kc: real, ka: real)
    requires Factor(kc) && Factor(ka)
    ensures var exact := Final(Load(0.0, 0.0), history + future, kc, ka);
            var rounded := Final(Load(0.0, 0.0), history, kc, ka);
            var projected := Final(Load(Round1(rounded.ctl), Round1(rounded.atl)), future, kc, ka);
            -0.05 <= projected.ctl - exact.ctl <= 0.05 && -0.05 <= projected.atl - exact.atl <= 0.05
  {
    var h, f := Stresses(history), Stresses(future);
    StressesAppend(history, future);
    RunAppend(0.0, h, f, kc);
    RunAppend(0.0, h, f, ka);
    RunsStayApart(Round1(Run(0.0, h, kc)), Run(0.0, h, kc), f, kc, 0.05);
    RunsStayApart(Round1(Run(0.0, h, ka)), Run(0.0, h, ka), f, ka, 0.05);
  }

  /** The order of the input does not matter when no two different records
      share a date: any two orderings of the same days give the same chart. */
  lemma OrderDoesNotMatter(d1: seq<Day>, d2: seq<Day>, kc: real, ka: real)
    requires multiset(d1) == multiset(d2)
    requires KeyDetermines(d1, DateOf)
    ensures Series(Load(0.0, 0.0), SortBy(d1, DateOf), kc, ka, false)
         == Series(Load(0.0, 0.0), SortBy(d2, DateOf), kc, ka, false)
  {
    KeyDeterminesPermutation(d1, SortBy(d1, DateOf), DateOf);
    AscendingPermutationUnique(SortBy(d1, DateOf), SortBy(d2, DateOf), DateOf);
  }

  /** Form is rounded from the unrounded difference, so it need not equal the
      difference of the rounded fitness and fatigue. */
  lemma FormRoundedFromExactDifference()
    ensures var p := Emit(Day(0, Some(0.0)), Load(0.04, 0.06), false);
            p.ctl == 0.0 && p.atl == 0.1 && p.tsb == 0.0 && p.tsb != p.ctl - p.atl
  {
    assert (0.04 * 10.0 + 0.5).Floor == 0;
    assert (0.06 * 10.0 + 0.5).Floor == 1;
    assert ((0.04 - 0.06) * 10.0 + 0.5).Floor == 0;
  }

  // ---------------------------------------------------------------------------
  // Form classifier

  datatype FormStatus = FormStatus(formLabel: string, color: string, risk: Option<string>)

  /** `getFormStatus(tsb)`: six bands tested from the top, first match wins. */
  function GetFormStatus(tsb: real): (r: FormStatus)
    ensures r.formLabel == "Very Fresh" <==> tsb > 25.0
    ensures r.formLabel == "Fresh" <==> 5.0 < tsb <= 25.0
    ensures r.formLabel == "Optimal" <==> -10.0 < tsb <= 5.0
    ensures r.formLabel == "Tired" <==> -25.0 < tsb <= -10.0
    ensures r.formLabel == "Very Tired" <==> -40.0 < tsb <= -25.0
    ensures r.formLabel == "Overreaching" <==> tsb <= -40.0
    ensures r.risk.None? <==> r.formLabel == "Fresh" || r.formLabel == "Optimal"
    ensures r.formLabel == "Very Fresh" ==> r.risk == Some("Undertraining risk")
  {
    if tsb > 25.0 then FormStatus("Very Fresh", "#4a9eff", Some("Undertraining risk"))
    else if tsb > 5.0 then FormStatus("Fresh", "#00c896", None)
    else if tsb > -10.0 then FormStatus("Optimal", "#c8f000", None)
    else if tsb > -25.0 then FormStatus("Tired", "#ff7a00", Some("Accumulating fatigue"))
    else if tsb > -40.0 then FormStatus("Very Tired", "#ff3b3b", Some("Recovery needed"))
    else FormStatus("Overreaching", "#cc00ff", Some("Back off immediately"))
  }

  /** How fatigued a label says the athlete is, 0 for "Very Fresh" up to 5. */
  function Severity(formLabel: string): nat
  {
    if formLabel == "Very Fresh" then 0
    else if formLabel == "Fresh" then 1
    else if formLabel == "Optimal" then 2
    else if formLabel == "Tired" then 3
    else if formLabel == "Very Tired" then 4
    else 5
  }

  /** Lower form never reads as fresher. */
  lemma FormStatusMonotone(tsb1: real, tsb2: real)
    requires tsb1 <= tsb2
    ensures Severity(GetFormStatus(tsb2).formLabel) <= Severity(GetFormStatus(tsb1).formLabel)
  {
  }
}
