/** The workout builder (components/WorkoutBuilder.js): the interval diagram
    expands each interval of a template into its repeats with recoveries in
    between, and the post button sends either the selected template or the
    custom workout. */
module WorkoutBuilder {
  import opened Js

  datatype Recovery = Recovery(duration: real, watts: real)

  /** An interval of a template. `repeats` is absent for a single block. */
  datatype Interval = Interval(name: string, duration: real, watts: real, zone: string,
                               repeats: Option<int>, recovery: Option<Recovery>)

  /** A bar of the diagram: the interval itself, or the recovery pushed
      between two of its repeats (`name 'Recovery'`, `zone 'z1'`,
      `isRecovery: true`). */
  datatype Bar = Work(interval: Interval) | Rest(duration: real, watts: real)

  function Duration(b: Bar): real {
    match b
    case Work(iv) => iv.duration
    case Rest(d, _) => d
  }

  function Watts(b: Bar): real {
    match b
    case Work(iv) => iv.watts
    case Rest(_, w) => w
  }

  function Zone(b: Bar): string {
    match b
    case Work(iv) => iv.zone
    case Rest(_, _) => "z1"
  }

  /** `interval.repeats || 1`. */
  function Count(iv: Interval): int {
    if iv.repeats.Some? && iv.repeats.value != 0 then iv.repeats.value else 1
  }

  /** How often `for (let i = 0; i < count; i++)` runs. */
  function Iterations(iv: Interval): nat {
    if Count(iv) > 0 then Count(iv) else 0
  }

  /** The recovery pushed after repeat `i` of `n`: only between repeats. */
  function RecoveryAfter(iv: Interval, i: nat, n: nat): seq<Bar> {
    if iv.recovery.Some? && i < n - 1 then [Rest(iv.recovery.value.duration, iv.recovery.value.watts)] else []
  }

  /** The bars of the first `i` of `n` repeats. */
  function Reps(iv: Interval, n: nat, i: nat): seq<Bar>
    requires i <= n
  {
    if i == 0 then [] else Reps(iv, n, i - 1) + [Work(iv)] + RecoveryAfter(iv, i - 1, n)
  }

  /** The bars of one interval. */
  function ExpandOne(iv: Interval): seq<Bar> {
    Reps(iv, Iterations(iv), Iterations(iv))
  }

  /** The `expanded` array for a list of intervals. */
  function Expand(ivs: seq<Interval>): seq<Bar> {
    if ivs == [] then [] else Expand(ivs[..|ivs| - 1]) + ExpandOne(ivs[|ivs| - 1])
  }

  /** `expanded.reduce((s, i) => s + i.duration, 0)`. */
  function TotalDuration(bars: seq<Bar>): real {
    if bars == [] then 0.0 else TotalDuration(bars[..|bars| - 1]) + Duration(bars[|bars| - 1])
  }

  /** `Math.max(...expanded.map(i => i.watts), 300)`. */
  function MaxWatts(bars: seq<Bar>): (m: real)
    ensures 300.0 <= m
    ensures forall j :: 0 <= j < |bars| ==> Watts(bars[j]) <= m
    ensures m == 300.0 || exists j :: 0 <= j < |bars| && m == Watts(bars[j])
  {
    if bars == [] then 300.0
    else
      var init := bars[..|bars| - 1];
      var m := MaxWatts(init);
      assert forall j :: 0 <= j < |init| ==> bars[j] == init[j];
      var w := Watts(bars[|bars| - 1]);
      if w > m then w else m
  }

  // ---------------------------------------------------------------------------
  // The component

  /** The inner loop of `IntervalViz`: the interval is pushed once per
      repeat, followed by its recovery except after the last repeat. */
  method PushRepeats(expanded: seq<Bar>, iv: Interval) returns (expanded': seq<Bar>)
    ensures expanded' == expanded + ExpandOne(iv)
  {
    expanded' := expanded;
    var count := Count(iv);
    ghost var n := Iterations(iv);
    var i := 0;
    while i < count
      invariant 0 <= i && (count > 0 ==> i <= count) && (count <= 0 ==> i == 0)
      invariant expanded' == expanded + Reps(iv, n, i)
    {
      expanded' := expanded' + [Work(iv)];
      if iv.recovery.Some? && i < count - 1 {
        expanded' := expanded' + [Rest(iv.recovery.value.duration, iv.recovery.value.watts)];
      }
      i := i + 1;
    }
  }

  /** The expansion loop of `IntervalViz`, interval by interval. */
  method ExpandIntervals(ivs: seq<Interval>) returns (expanded: seq<Bar>)
    ensures expanded == Expand(ivs)
  {
    expanded := [];
    for k := 0 to |ivs|
      invariant expanded == Expand(ivs[..k])
    {
      assert ivs[..k + 1][..k] == ivs[..k];
      expanded := PushRepeats(expanded, ivs[k]);
    }
    assert ivs[..|ivs|] == ivs;
  }

  /** `IntervalViz`: the bars, their maximum watts (at least 300) and their
      total duration. */
  method IntervalViz(ivs: seq<Interval>) returns (expanded: seq<Bar>, maxWatts: real, totalDuration: real)
    ensures expanded == Expand(ivs)
    ensures maxWatts == MaxWatts(expanded)
    ensures totalDuration == TotalDuration(expanded)
  {
    expanded := ExpandIntervals(ivs);
    maxWatts := 300.0;
    totalDuration := 0.0;
    for j := 0 to |expanded|
      invariant maxWatts == MaxWatts(expanded[..j])
      invariant totalDuration == TotalDuration(expanded[..j])
    {
      assert expanded[..j + 1][..j] == expanded[..j];
      if Watts(expanded[j]) > maxWatts {
        maxWatts := Watts(expanded[j]);
      }
      totalDuration := totalDuration + Duration(expanded[j]);
    }
    assert expanded[..|expanded|] == expanded;
  }

  // ---------------------------------------------------------------------------
  // The shape of an expanded interval

  /** Without a recovery, an interval is its repeats, back to back. */
  lemma {:induction false} RepsWithoutRecovery(iv: Interval, n: nat, i: nat)
    requires i <= n && iv.recovery.None?
    ensures |Reps(iv, n, i)| == i
    ensures forall j :: 0 <= j < i ==> Reps(iv, n, i)[j] == Work(iv)
  {
    if i > 0 {
      RepsWithoutRecovery(iv, n, i - 1);
    }
  }

  /** With a recovery, repeats and recoveries alternate, starting with a
      repeat; before the last repeat every repeat has its recovery. */
  lemma {:induction false} RepsWithRecovery(iv: Interval, n: nat, i: nat)
    requires i <= n && iv.recovery.Some?
    ensures |Reps(iv, n, i)| == if i == n && n > 0 then 2 * i - 1 else 2 * i
    ensures forall j :: 0 <= j < |Reps(iv, n, i)| ==>
              Reps(iv, n, i)[j] == if j % 2 == 0 then Work(iv) else Rest(iv.recovery.value.duration, iv.recovery.value.watts)
  {
    if i > 0 {
      RepsWithRecovery(iv, n, i - 1);
    }
  }

  /** Each interval appears `repeats || 1` times and, with a recovery, gets
      one fewer recoveries in between: `count + (recovery ? count - 1 : 0)` bars. */
  lemma ExpandOneShape(iv: Interval)
    ensures var n := Iterations(iv);
            |ExpandOne(iv)| == if iv.recovery.Some? && n > 0 then 2 * n - 1 else n
    ensures iv.recovery.None? ==> forall j :: 0 <= j < |ExpandOne(iv)| ==> ExpandOne(iv)[j] == Work(iv)
    ensures iv.recovery.Some? ==> forall j :: 0 <= j < |ExpandOne(iv)| ==>
              ExpandOne(iv)[j] == if j % 2 == 0 then Work(iv) else Rest(iv.recovery.value.duration, iv.recovery.value.watts)
  {
    var n := Iterations(iv);
    if iv.recovery.Some? {
      RepsWithRecovery(iv, n, n);
    } else {
      RepsWithoutRecovery(iv, n, n);
    }
  }

  /** Every recovery bar is in zone 'z1'. */
  lemma RecoveriesInZ1(iv: Interval)
    ensures forall j :: 0 <= j < |ExpandOne(iv)| && ExpandOne(iv)[j].Rest? ==> Zone(ExpandOne(iv)[j]) == "z1"
  {
  }

  /** The number of bars an interval expands to. */
  function BarCount(iv: Interval): nat {
    var n := Iterations(iv);
    n + (if iv.recovery.Some? && n > 0 then n - 1 else 0)
  }

  function BarCounts(ivs: seq<Interval>): nat {
    if ivs == [] then 0 else BarCounts(ivs[..|ivs| - 1]) + BarCount(ivs[|ivs| - 1])
  }

  /** `|expanded|` is the sum over the intervals of `count + (recovery ? count - 1 : 0)`. */
  lemma {:induction false} ExpandLength(ivs: seq<Interval>)
    ensures |Expand(ivs)| == BarCounts(ivs)
  {
    if ivs != [] {
      ExpandLength(ivs[..|ivs| - 1]);
      ExpandOneShape(ivs[|ivs| - 1]);
    }
  }

  /** The intervals appear in order: the bars of the intervals before the
      last come first. */
  lemma ExpandInOrder(ivs: seq<Interval>, iv: Interval)
    ensures Expand(ivs + [iv]) == Expand(ivs) + ExpandOne(iv)
  {
    assert (ivs + [iv])[..|ivs|] == ivs;
  }

  // ---------------------------------------------------------------------------
  // Totals

  lemma {:induction false} TotalDurationAppend(a: seq<Bar>, b: seq<Bar>)
    ensures TotalDuration(a + b) == TotalDuration(a) + TotalDuration(b)
  {
    if b == [] {
      assert a + b == a;
    } else {
      var b' := b[..|b| - 1];
      TotalDurationAppend(a, b');
      assert (a + b)[..|a + b| - 1] == a + b';
      assert (a + b)[|a + b| - 1] == b[|b| - 1];
    }
  }

  /** The recoveries among the bars of the first `i` of `n` repeats. */
  function Rests(iv: Interval, n: nat, i: nat): nat {
    if iv.recovery.Some? then (if i == n && n > 0 then i - 1 else i) else 0
  }

  function RestMinutes(iv: Interval): real {
    if iv.recovery.Some? then iv.recovery.value.duration else 0.0
  }

  /** The minutes of one interval: its repeats and its recoveries. */
  function IntervalMinutes(iv: Interval): real {
    var n := Iterations(iv);
    n as real * iv.duration + Rests(iv, n, n) as real * RestMinutes(iv)
  }

  lemma RepsStep(iv: Interval, n: nat, i: nat)
    requires 0 < i <= n
    ensures Rests(iv, n, i) == Rests(iv, n, i - 1) ==>
              TotalDuration(Reps(iv, n, i)) == TotalDuration(Reps(iv, n, i - 1)) + iv.duration
    ensures Rests(iv, n, i) != Rests(iv, n, i - 1) ==>
              Rests(iv, n, i) == Rests(iv, n, i - 1) + 1
              && TotalDuration(Reps(iv, n, i)) == TotalDuration(Reps(iv, n, i - 1)) + iv.duration + RestMinutes(iv)
  {
    TotalDurationAppend(Reps(iv, n, i - 1) + [Work(iv)], RecoveryAfter(iv, i - 1, n));
    TotalDurationAppend(Reps(iv, n, i - 1), [Work(iv)]);
    assert TotalDuration([Work(iv)]) == iv.duration;
    if iv.recovery.Some? && i - 1 < n - 1 {
      assert TotalDuration(RecoveryAfter(iv, i - 1, n)) == RestMinutes(iv);
    } else {
      assert RecoveryAfter(iv, i - 1, n) == [];
    }
  }

  /** `k` copies of `x` added up. */
  function Scale(k: nat, x: real): real {
    if k == 0 then 0.0 else Scale(k - 1, x) + x
  }

  lemma {:induction false} ScaleIsProduct(k: nat, x: real)
    ensures Scale(k, x) == k as real * x
  {
    if k > 0 {
      ScaleIsProduct(k - 1, x);
      assert k as real * x == (k - 1) as real * x + x;
    }
  }

  lemma {:induction false} RepsDuration(iv: Interval, n: nat, i: nat)
    requires i <= n
    ensures TotalDuration(Reps(iv, n, i)) == Scale(i, iv.duration) + Scale(Rests(iv, n, i), RestMinutes(iv))
  {
    if i > 0 {
      RepsDuration(iv, n, i - 1);
      RepsStep(iv, n, i);
    }
  }

  function Minutes(ivs: seq<Interval>): real {
    if ivs == [] then 0.0 else Minutes(ivs[..|ivs| - 1]) + IntervalMinutes(ivs[|ivs| - 1])
  }

  /** `totalDuration` adds up every repeat and every recovery. */
  lemma {:induction false} TotalDurationOfExpand(ivs: seq<Interval>)
    ensures TotalDuration(Expand(ivs)) == Minutes(ivs)
  {
    if ivs != [] {
      var init, iv := ivs[..|ivs| - 1], ivs[|ivs| - 1];
      assert Expand(ivs) == Expand(init) + ExpandOne(iv);
      TotalDurationOfExpand(init);
      TotalDurationAppend(Expand(init), ExpandOne(iv));
      ExpandOneDuration(iv);
    }
  }

  /** An interval's bars last `count` repeats plus its recoveries. */
  lemma ExpandOneDuration(iv: Interval)
    ensures TotalDuration(ExpandOne(iv)) == IntervalMinutes(iv)
  {
    var n := Iterations(iv);
    RepsDuration(iv, n, n);
    ScaleIsProduct(n, iv.duration);
    ScaleIsProduct(Rests(iv, n, n), RestMinutes(iv));
  }

  // ---------------------------------------------------------------------------
  // Posting

  datatype Mode = TemplateMode | CustomMode

  datatype Template = Template(name: string, kind: string, tss: real, duration: real, description: string,
                               intervals: seq<Interval>)

  datatype Custom = Custom(name: string, description: string, tss: real, duration: real, kind: string)

  function Block(name: string, duration: real, watts: real, zone: string): Interval {
    Interval(name, duration, watts, zone, None, None)
  }

  function Repeated(name: string, duration: real, watts: real, zone: string, repeats: int, rest: Recovery): Interval {
    Interval(name, duration, watts, zone, Some(repeats), Some(rest))
  }

  /** `WORKOUT_TEMPLATES`. Durations of templates are in seconds, those of
      intervals in minutes. */
  const Templates: seq<Template> := [
    Template("Sweet Spot 2x20", "Ride", 85.0, 75.0 * 60.0,
             "Warm up 15min Z2\n2x20min @ 215-225w (SS) / 5min recovery Z2\nCool down 10min Z1",
             [Block("Warm Up", 15.0, 170.0, "z2"),
              Repeated("Sweet Spot", 20.0, 220.0, "z4", 2, Recovery(5.0, 150.0)),
              Block("Cool Down", 10.0, 130.0, "z1")]),
    Template("VO2max 5x4", "Ride", 95.0, 70.0 * 60.0,
             "Warm up 15min Z2\n5x4min @ 255-265w (VO2) / 4min recovery Z1-2\nCool down 10min Z1",
             [Block("Warm Up", 15.0, 170.0, "z2"),
              Repeated("VO2max", 4.0, 260.0, "z5", 5, Recovery(4.0, 130.0)),
              Block("Cool Down", 10.0, 130.0, "z1")]),
    Template("Threshold 4x8", "Ride", 90.0, 75.0 * 60.0,
             "Warm up 15min Z2\n4x8min @ 235-245w (CP) / 4min Z2\nCool down 10min Z1",
             [Block("Warm Up", 15.0, 170.0, "z2"),
              Repeated("Threshold", 8.0, 240.0, "z5", 4, Recovery(4.0, 165.0)),
              Block("Cool Down", 10.0, 130.0, "z1")]),
    Template("Calpe Endurance", "Ride", 110.0, 180.0 * 60.0,
             "Long aerobic ride \U{2014} Calpe climbing\n3h Z2 / Z3 mix, stay below threshold on climbs\nTarget: 140-175w average",
             [Block("Endurance Block", 180.0, 165.0, "z2")]),
    Template("Crit Openers", "Ride", 55.0, 60.0 * 60.0,
             "Pre-race activation \U{2014} day before crit\n45min Z2 with 4x15sec max sprints\nStay fresh, wake up the legs",
             [Block("Warm Up", 20.0, 165.0, "z2"),
              Repeated("Sprints", 1.0, 480.0, "z6", 4, Recovery(5.0, 140.0)),
              Block("Spin Down", 15.0, 140.0, "z1")])
  ]

  /** The diagram of "Sweet Spot 2x20" totals 70 minutes (15 + 2 x 20 + 5 + 10)
      while the template declares 75. */
  lemma SweetSpotDiagramShorter()
    ensures TotalDuration(Expand(Templates[0].intervals)) == 70.0
    ensures Templates[0].duration == 75.0 * 60.0
  {
    var ivs := Templates[0].intervals;
    TotalDurationOfExpand(ivs);
    assert Iterations(ivs[0]) == 1 && Rests(ivs[0], 1, 1) == 0;
    assert IntervalMinutes(ivs[0]) == 15.0;
    assert Iterations(ivs[1]) == 2 && Rests(ivs[1], 2, 2) == 1;
    assert IntervalMinutes(ivs[1]) == 45.0;
    assert Iterations(ivs[2]) == 1 && Rests(ivs[2], 1, 1) == 0;
    assert IntervalMinutes(ivs[2]) == 10.0;
    assert ivs[..1][..0] == [];
    assert Minutes(ivs[..1]) == 15.0;
    assert ivs[..2][..1] == ivs[..1];
    assert Minutes(ivs[..2]) == 60.0;
    assert ivs[..3] == ivs;
  }

  /** What `onPost` receives. `duration` is in seconds. */
  datatype Post = Post(date: string, name: string, description: string, tss: real, duration: real, kind: string)

  /** `handlePost`: the selected template, or the custom workout with its
      minutes turned into seconds; `None` when nothing is posted. */
  function HandlePost(mode: Mode, selected: Option<nat>, date: string, custom: Custom): (p: Option<Post>)
    requires selected.Some? ==> selected.value < |Templates|
    ensures mode.TemplateMode? && selected.Some? ==>
              var t := Templates[selected.value];
              p == Some(Post(date, t.name, t.description, t.tss, t.duration, t.kind))
    ensures mode.CustomMode? && custom.name != "" ==>
              p == Some(Post(date, custom.name, custom.description, custom.tss, custom.duration * 60.0, custom.kind))
    ensures p.None? <==> (mode.TemplateMode? && selected.None?) || (mode.CustomMode? && custom.name == "")
  {
    if mode.TemplateMode? && selected.Some? then
      var t := Templates[selected.value];
      Some(Post(date, t.name, t.description, t.tss, t.duration, t.kind))
    else if mode.CustomMode? && custom.name != "" then
      Some(Post(date, custom.name, custom.description, custom.tss, custom.duration * 60.0, custom.kind))
    else
      None
  }

  /** The post button's `disabled` flag. */
  predicate Disabled(mode: Mode, selected: Option<nat>, custom: Custom) {
    if mode.TemplateMode? then selected.None? else custom.name == ""
  }

  /** The button is enabled exactly when pressing it posts something. */
  lemma DisabledMirrorsGuard(mode: Mode, selected: Option<nat>, date: string, custom: Custom)
    requires selected.Some? ==> selected.value < |Templates|
    ensures HandlePost(mode, selected, date, custom).Some? <==> !Disabled(mode, selected, custom)
  {
  }
}
