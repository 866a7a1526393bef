/** The transformations in the dashboard handler (pages/api/dashboard.js):
    the fitness rows with whole-number fitness, fatigue and form, a second
    weekly grouping of activities that differs from lib/pmc.js `weeklyTSS`
    in its rounding and its duration field, and the latest fitness row up
    to today. */
module Dashboard {
  import opened Js
  import opened Strings
  import opened Activities
  import opened Grouping
  import WeeklyLoad

  // ---------------------------------------------------------------------------
  // Fitness rows

  /** A record of the fitness-data payload. */
  datatype FitnessRecord = FitnessRecord(id: Text, date: Text, ctl: Num, atl: Num, tss: Num)

  datatype PmcRow = PmcRow(date: Text, ctl: int, atl: int, tsb: int, tss: int)

  /** `d.id || d.date` for text fields. */
  function IdOrDate(d: FitnessRecord): (r: Text)
    ensures TruthyText(d.id) ==> r == d.id
    ensures !TruthyText(d.id) ==> r == d.date
  {
    if TruthyText(d.id) then d.id else d.date
  }

  function RowOfRecord(d: FitnessRecord): PmcRow
  {
    PmcRow(IdOrDate(d), Round(OrZero(d.ctl)), Round(OrZero(d.atl)),
           Round(OrZero(d.ctl) - OrZero(d.atl)), Round(OrZero(d.tss)))
  }

  /** The `pmc` array: `None` stands for a failed fetch or a payload that is
      not an array, both of which leave `pmc` empty. */
  function PmcRows(raw: Option<seq<FitnessRecord>>): (rows: seq<PmcRow>)
    ensures raw.None? ==> rows == []
    ensures raw.Some? ==> |rows| == |raw.value|
    ensures raw.Some? ==> forall i :: 0 <= i < |rows| ==>
              rows[i].date == IdOrDate(raw.value[i])
              && rows[i].ctl == Round(OrZero(raw.value[i].ctl))
              && rows[i].atl == Round(OrZero(raw.value[i].atl))
              && rows[i].tsb == Round(OrZero(raw.value[i].ctl) - OrZero(raw.value[i].atl))
  {
    match raw
    case None => []
    case Some(ds) => seq(|ds|, i requires 0 <= i < |ds| => RowOfRecord(ds[i]))
  }

  /** Form is rounded from the unrounded difference, so it may be one off the
      difference of the rounded fitness and fatigue, but never more. */
  lemma TsbNearRoundedDifference(d: FitnessRecord)
    ensures var r := RowOfRecord(d);
            r.ctl - r.atl - 1 <= r.tsb <= r.ctl - r.atl + 1
  {
  }

  /** Fitness 0.5 and fatigue 0.4 show as 1 and 0, with form 0. */
  lemma TsbDiffersFromRoundedDifference()
    ensures var r := RowOfRecord(FitnessRecord(Some("2026-02-17"), None, Some(0.5), Some(0.4), None));
            r.ctl == 1 && r.atl == 0 && r.tsb == 0
  {
  }

  // ---------------------------------------------------------------------------
  // Latest row up to today

  /** `d.date <= today`; a row without a date compares false. */
  predicate UpTo(r: PmcRow, today: string) {
    r.date.Some? && LexLe(r.date.value, today)
  }

  /** The index of the last row up to today, -1 when there is none. */
  function LastUpTo(pmc: seq<PmcRow>, today: string): (i: int)
    ensures -1 <= i < |pmc|
    ensures 0 <= i ==> UpTo(pmc[i], today)
    ensures forall j :: i < j < |pmc| ==> !UpTo(pmc[j], today)
  {
    if pmc == [] then -1
    else if UpTo(pmc[|pmc| - 1], today) then |pmc| - 1
    else
      var i := LastUpTo(pmc[..|pmc| - 1], today);
      assert forall j :: i < j < |pmc| - 1 ==> pmc[..|pmc| - 1][j] == pmc[j];
      i
  }

  /** `pmc.filter(d => d.date <= today).slice(-1)[0]`, `None` for the `{}`
      fallback when no row qualifies. */
  function Latest(pmc: seq<PmcRow>, today: string): (r: Option<PmcRow>)
    ensures r.None? <==> forall i :: 0 <= i < |pmc| ==> !UpTo(pmc[i], today)
    ensures r.Some? ==> exists i :: 0 <= i < |pmc| && pmc[i] == r.value && UpTo(pmc[i], today)
                          && forall j :: i < j < |pmc| ==> !UpTo(pmc[j], today)
  {
    var i := LastUpTo(pmc, today);
    if i < 0 then None else Some(pmc[i])
  }

  /** The `latest` object of the response: each field is undefined (`None`)
      when no row qualifies. */
  datatype LatestFields = LatestFields(ctl: Option<int>, atl: Option<int>, tsb: Option<int>)

  function LatestResponse(pmc: seq<PmcRow>, today: string): (f: LatestFields)
    ensures Latest(pmc, today).None? ==> f == LatestFields(None, None, None)
    ensures Latest(pmc, today).Some? ==>
              f == LatestFields(Some(Latest(pmc, today).value.ctl), Some(Latest(pmc, today).value.atl),
                                Some(Latest(pmc, today).value.tsb))
  {
    match Latest(pmc, today)
    case None => LatestFields(None, None, None)
    case Some(r) => LatestFields(Some(r.ctl), Some(r.atl), Some(r.tsb))
  }

  // ---------------------------------------------------------------------------
  // Weekly grouping

  /** `d.getDate() - ((d.getDay() + 6) % 7)`. */
  function DashMonday(d: int): int
  {
    d - (Weekday(d) + 6) % 7
  }

  /** Both week rules pick the same Monday for every weekday. */
  lemma SameMonday(d: int)
    ensures DashMonday(d) == WeeklyLoad.MondayOf(d)
  {
  }

  /** Only `start_date_local` is read; activities where it is falsy (absent,
      empty or null) are skipped. */
  function Kept(acts: seq<Activity>): (kept: seq<Activity>)
    ensures |kept| <= |acts|
  {
    if acts == [] then []
    else
      var a := acts[|acts| - 1];
      var init := Kept(acts[..|acts| - 1]);
      if Falsy(a.startDateLocal) then init else init + [a]
  }

  /** No kept activity has unparseable date text, so the handler does not
      throw a RangeError. */
  predicate Parseable(acts: seq<Activity>) {
    forall i :: 0 <= i < |acts| ==> !acts[i].startDateLocal.Unparseable?
  }

  function DashKey(a: Activity): int
  {
    match a.startDateLocal
    case Date(d) => DashMonday(d)
    case _ => 0
  }

  /** `elapsed_time || moving_time || 0`: elapsed time first, unlike lib/pmc.js. */
  function Duration(a: Activity): real
  {
    FirstTruthy(a.elapsedTime, a.movingTime)
  }

  /** `Math.round((hours * 3600 + seconds) / 3600 * 10) / 10`: the hours are
      re-rounded to one decimal after every activity. */
  function AddHours(hours: real, seconds: real): (h: real)
    ensures hours + seconds / 3600.0 - 0.05 < h <= hours + seconds / 3600.0 + 0.05
  {
    var exact := (hours * 3600.0 + seconds) / 3600.0;
    assert exact == hours + seconds / 3600.0;
    Round1(exact)
  }

  datatype DashTotals = DashTotals(tss: int, rides: nat, hours: real)

  /** The totals `weekMap` holds for a group: each load rounded before adding. */
  function DashTotalsOf(g: seq<Activity>): DashTotals
  {
    if g == [] then DashTotals(0, 0, 0.0)
    else
      var t := DashTotalsOf(g[..|g| - 1]);
      var a := g[|g| - 1];
      DashTotals(t.tss + Round(Load(a)), t.rides + 1, AddHours(t.hours, Duration(a)))
  }

  lemma DashTotalsSnoc(g: seq<Activity>, a: Activity)
    ensures DashTotalsOf(g + [a])
         == DashTotals(DashTotalsOf(g).tss + Round(Load(a)), DashTotalsOf(g).rides + 1,
                       AddHours(DashTotalsOf(g).hours, Duration(a)))
  {
    assert (g + [a])[..|g|] == g;
  }

  datatype DashWeek = DashWeek(week: int, tss: int, rides: nat, hours: real)

  function DashKeysOf(acts: seq<Activity>): (ks: seq<int>)
    ensures |ks| == |acts|
    ensures forall i :: 0 <= i < |acts| ==> ks[i] == DashKey(acts[i])
  {
    if acts == [] then [] else DashKeysOf(acts[..|acts| - 1]) + [DashKey(acts[|acts| - 1])]
  }

  function DashWeekOf(kept: seq<Activity>, k: int): DashWeek
  {
    var t := DashTotalsOf(Group(kept, DashKey, k));
    DashWeek(k, t.tss, t.rides, t.hours)
  }

  function DashRows(kept: seq<Activity>, ks: seq<int>): (rows: seq<DashWeek>)
    ensures |rows| == |ks|
    ensures forall j :: 0 <= j < |ks| ==> rows[j] == DashWeekOf(kept, ks[j])
  {
    seq(|ks|, j requires 0 <= j < |ks| => DashWeekOf(kept, ks[j]))
  }

  /** The `weeks` array: one row per week of the kept activities, ascending. */
  function Weeks(acts: seq<Activity>): seq<DashWeek>
  {
    DashRows(Kept(acts), SortedKeys(DashKeysOf(Kept(acts))))
  }

  /** What `weekMap` and its insertion order hold after the kept activities `kept`. */
  ghost predicate Accumulated(kept: seq<Activity>, weekMap: map<int, DashTotals>, order: seq<int>)
  {
    && (forall k :: k in weekMap <==> k in order)
    && (forall k :: k in order <==> k in DashKeysOf(kept))
    && (forall k :: k in weekMap ==> weekMap[k] == DashTotalsOf(Group(kept, DashKey, k)))
  }

  /** The map after adding activity `a` to week `key`. */
  function AddTo(weekMap: map<int, DashTotals>, key: int, a: Activity): (w: map<int, DashTotals>)
    ensures w.Keys == weekMap.Keys + {key}
  {
    var t := if key in weekMap then weekMap[key] else DashTotals(0, 0, 0.0);
    weekMap[key := DashTotals(t.tss + Round(Load(a)), t.rides + 1, AddHours(t.hours, Duration(a)))]
  }

  function Enqueue(order: seq<int>, weekMap: map<int, DashTotals>, key: int): seq<int>
  {
    if key in weekMap then order else order + [key]
  }

  lemma TotalsStepAt(g: seq<Activity>, g': seq<Activity>, a: Activity, key: int, weekMap: map<int, DashTotals>, k: int)
    requires g' == if k == key then g + [a] else g
    requires k in weekMap ==> weekMap[k] == DashTotalsOf(g)
    requires k == key && key !in weekMap ==> g == []
    requires k in AddTo(weekMap, key, a)
    ensures AddTo(weekMap, key, a)[k] == DashTotalsOf(g')
  {
    if k == key {
      DashTotalsSnoc(g, a);
    }
  }

  lemma AbsentWeek(kept: seq<Activity>, key: int)
    requires key !in DashKeysOf(kept)
    ensures Group(kept, DashKey, key) == []
  {
    forall i | 0 <= i < |kept| ensures DashKey(kept[i]) != key {
      assert DashKeysOf(kept)[i] == DashKey(kept[i]);
    }
    GroupOfAbsentKey(kept, DashKey, key);
  }

  lemma OrderStep(ks: seq<int>, key: int, weekMap: map<int, DashTotals>, order: seq<int>, a: Activity)
    requires forall k :: k in weekMap <==> k in order
    requires forall k :: k in order <==> k in ks
    ensures forall k :: k in AddTo(weekMap, key, a) <==> k in Enqueue(order, weekMap, key)
    ensures forall k :: k in Enqueue(order, weekMap, key) <==> k in ks + [key]
  {
  }

  lemma AccumulateStep(kept: seq<Activity>, a: Activity, key: int, weekMap: map<int, DashTotals>, order: seq<int>)
    requires Accumulated(kept, weekMap, order) && key == DashKey(a)
    ensures Accumulated(kept + [a], AddTo(weekMap, key, a), Enqueue(order, weekMap, key))
  {
    assert (kept + [a])[..|kept|] == kept;
    assert DashKeysOf(kept + [a]) == DashKeysOf(kept) + [key];
    if key !in weekMap {
      AbsentWeek(kept, key);
    }
    forall k | k in AddTo(weekMap, key, a)
      ensures AddTo(weekMap, key, a)[k] == DashTotalsOf(Group(kept + [a], DashKey, k))
    {
      GroupSnoc(kept, a, DashKey, k);
      TotalsStepAt(Group(kept, DashKey, k), Group(kept + [a], DashKey, k), a, key, weekMap, k);
    }
    OrderStep(DashKeysOf(kept), key, weekMap, order, a);
  }

  /** The body of the `forEach` for an activity of week `key`: the week's
      entry is created when missing, then its load, rides and hours grow. */
  method AddToWeek(weekMap: map<int, DashTotals>, order: seq<int>, key: int, a: Activity)
    returns (weekMap': map<int, DashTotals>, order': seq<int>)
    ensures weekMap' == AddTo(weekMap, key, a)
    ensures order' == Enqueue(order, weekMap, key)
  {
    weekMap', order' := weekMap, order;
    if key !in weekMap' {
      weekMap' := weekMap'[key := DashTotals(0, 0, 0.0)];
      order' := order' + [key];
    }
    var t := weekMap'[key];
    weekMap' := weekMap'[key := DashTotals(t.tss + Round(Load(a)), t.rides + 1, AddHours(t.hours, Duration(a)))];
  }

  lemma KeptSnoc(acts: seq<Activity>, a: Activity)
    ensures Kept(acts + [a]) == if Falsy(a.startDateLocal) then Kept(acts) else Kept(acts) + [a]
  {
    assert (acts + [a])[..|acts|] == acts;
  }

  lemma PrefixStep(acts: seq<Activity>, i: nat)
    requires i < |acts|
    ensures Kept(acts[..i + 1]) == if Falsy(acts[i].startDateLocal) then Kept(acts[..i]) else Kept(acts[..i]) + [acts[i]]
    ensures Parseable(acts[..i + 1]) <==> Parseable(acts[..i]) && !acts[i].startDateLocal.Unparseable?
    ensures acts[i].startDateLocal.Unparseable? ==> !Parseable(acts)
  {
    assert acts[..i + 1] == acts[..i] + [acts[i]];
    KeptSnoc(acts[..i], acts[i]);
  }

  /** One activity with a readable `start_date_local`, added to its week. */
  method AddActivity(ghost kept: seq<Activity>, weekMap: map<int, DashTotals>, order: seq<int>, a: Activity)
    returns (weekMap': map<int, DashTotals>, order': seq<int>)
    requires Accumulated(kept, weekMap, order) && a.startDateLocal.Date?
    ensures Accumulated(kept + [a], weekMap', order')
  {
    var key := DashMonday(a.startDateLocal.day);
    weekMap', order' := AddToWeek(weekMap, order, key, a);
    AccumulateStep(kept, a, key, weekMap, order);
  }

  /** The `forEach` over the activities that fills `weekMap`. `ok` is false
      when a kept activity's date cannot be read. */
  method GroupIntoWeeks(acts: seq<Activity>) returns (ok: bool, weekMap: map<int, DashTotals>, order: seq<int>)
    ensures ok <==> Parseable(acts)
    ensures ok ==> Accumulated(Kept(acts), weekMap, order)
  {
    weekMap, order := map[], [];
    for i := 0 to |acts|
      invariant Parseable(acts[..i])
      invariant Accumulated(Kept(acts[..i]), weekMap, order)
    {
      var a := acts[i];
      PrefixStep(acts, i);
      if Falsy(a.startDateLocal) {
        continue;
      }
      if a.startDateLocal.Unparseable? {
        return false, weekMap, order;
      }
      weekMap, order := AddActivity(Kept(acts[..i]), weekMap, order, a);
    }
    assert acts[..|acts|] == acts;
    return true, weekMap, order;
  }

  /** `Object.values(weekMap)` in week order. */
  method EmitWeeks(kept: seq<Activity>, weekMap: map<int, DashTotals>, ks: seq<int>) returns (rows: seq<DashWeek>)
    requires forall k :: k in ks ==> k in weekMap && weekMap[k] == DashTotalsOf(Group(kept, DashKey, k))
    ensures rows == DashRows(kept, ks)
  {
    rows := [];
    for j := 0 to |ks|
      invariant |rows| == j
      invariant forall m :: 0 <= m < j ==> rows[m] == DashWeekOf(kept, ks[m])
    {
      var t := weekMap[ks[j]];
      rows := rows + [DashWeek(ks[j], t.tss, t.rides, t.hours)];
    }
  }

  /** The week grouping of the handler: `None` stands for the error response
      sent when an activity's date cannot be read. */
  method DashboardWeeks(acts: seq<Activity>) returns (r: Option<seq<DashWeek>>)
    ensures r == if Parseable(acts) then Some(Weeks(acts)) else None
  {
    var ok, weekMap, order := GroupIntoWeeks(acts);
    if !ok {
      return None;
    }
    var ks := SortedKeys(order);
    StrictlyAscendingUnique(ks, SortedKeys(DashKeysOf(Kept(acts))));
    var rows := EmitWeeks(Kept(acts), weekMap, ks);
    return Some(rows);
  }

  // ---------------------------------------------------------------------------
  // Properties of the weekly grouping

  /** An activity with a falsy `start_date_local` changes nothing. */
  lemma UndatedSkipped(acts: seq<Activity>, a: Activity)
    requires Falsy(a.startDateLocal)
    ensures Weeks(acts + [a]) == Weeks(acts)
    ensures Parseable(acts + [a]) == Parseable(acts)
  {
    KeptSnoc(acts, a);
    assert forall i :: 0 <= i < |acts| ==> (acts + [a])[i] == acts[i];
  }

  /** The rides of a group are its size. */
  lemma {:induction false} DashRides(g: seq<Activity>)
    ensures DashTotalsOf(g).rides == |g|
  {
    if g != [] {
      DashRides(g[..|g| - 1]);
    }
  }

  /** Rounding each load before adding drifts from the exact total by at most
      half a point per activity. */
  lemma {:induction false} DashTssNearExact(g: seq<Activity>)
    ensures WeeklyLoad.TotalsOf(g).tss - |g| as real / 2.0 <= DashTotalsOf(g).tss as real
    ensures DashTotalsOf(g).tss as real <= WeeklyLoad.TotalsOf(g).tss + |g| as real / 2.0
  {
    if g != [] {
      DashTssNearExact(g[..|g| - 1]);
    }
  }

  /** Exact hours of a group, from elapsed time first. */
  function ExactHours(g: seq<Activity>): real
  {
    if g == [] then 0.0 else ExactHours(g[..|g| - 1]) + Duration(g[|g| - 1]) / 3600.0
  }

  /** Re-rounding after every activity drifts by at most 0.05 hour per activity. */
  lemma {:induction false} DashHoursNearExact(g: seq<Activity>)
    ensures ExactHours(g) - 0.05 * |g| as real <= DashTotalsOf(g).hours <= ExactHours(g) + 0.05 * |g| as real
  {
    if g != [] {
      DashHoursNearExact(g[..|g| - 1]);
    }
  }

  /** Two activities of load 0.5 in one week: the dashboard counts 2, lib/pmc.js 1. */
  lemma TssRoundingDiffers(a: Activity)
    requires a.icuTrainingLoad == Some(0.5)
    ensures DashTotalsOf([a, a]).tss == 2
    ensures Round(WeeklyLoad.TotalsOf([a, a]).tss) == 1
  {
    assert Load(a) == 0.5;
    assert Round(0.5) == 1;
    assert [a][..0] == [] && [a, a][..1] == [a];
    assert DashTotalsOf([a]).tss == 1;
    assert WeeklyLoad.TotalsOf([a]).tss == 0.5;
    assert WeeklyLoad.TotalsOf([a, a]).tss == 1.0;
    RoundOfInt(1);
  }

  lemma {:induction false} GroupsAgree(xs: seq<Activity>, f: Activity -> int, g: Activity -> int, k: int)
    requires forall i :: 0 <= i < |xs| ==> f(xs[i]) == g(xs[i])
    ensures Group(xs, f, k) == Group(xs, g, k)
  {
    if xs != [] {
      GroupsAgree(xs[..|xs| - 1], f, g, k);
    }
  }

  /** Every activity has a parseable `start_date_local`. */
  predicate LocallyDated(acts: seq<Activity>) {
    forall i :: 0 <= i < |acts| ==> acts[i].startDateLocal.Date?
  }

  lemma {:induction false} KeptAll(acts: seq<Activity>)
    requires LocallyDated(acts)
    ensures Kept(acts) == acts
  {
    if acts != [] {
      var init := acts[..|acts| - 1];
      assert forall i :: 0 <= i < |init| ==> init[i] == acts[i];
      KeptAll(init);
      assert acts == init + [acts[|acts| - 1]];
    }
  }

  /** When every activity has a readable `start_date_local`, the handler and
      lib/pmc.js `weeklyTSS` list the same weeks with the same ride counts;
      their load totals differ by at most half a point per ride plus one half. */
  lemma AgreesWithWeeklyTss(acts: seq<Activity>)
    requires LocallyDated(acts)
    ensures WeeklyLoad.Dated(acts) && Parseable(acts)
    ensures |Weeks(acts)| == |WeeklyLoad.Weekly(acts)|
    ensures forall j :: 0 <= j < |Weeks(acts)| ==>
              var d := Weeks(acts)[j];
              var w := WeeklyLoad.Weekly(acts)[j];
              d.week == w.week && d.rides == w.rides
              && (w.tss - d.tss) as real <= (d.rides as real + 1.0) / 2.0
              && (d.tss - w.tss) as real <= (d.rides as real + 1.0) / 2.0
  {
    KeptAll(acts);
    assert forall i :: 0 <= i < |acts| ==> DashKey(acts[i]) == WeeklyLoad.WeekKey(acts[i]) by {
      forall i | 0 <= i < |acts| ensures DashKey(acts[i]) == WeeklyLoad.WeekKey(acts[i]) {
        SameMonday(acts[i].startDateLocal.day);
      }
    }
    assert DashKeysOf(acts) == WeeklyLoad.KeysOf(acts);
    var ks := SortedKeys(DashKeysOf(acts));
    forall j | 0 <= j < |ks|
      ensures var d := Weeks(acts)[j];
              var w := WeeklyLoad.Weekly(acts)[j];
              d.week == w.week && d.rides == w.rides
              && (w.tss - d.tss) as real <= (d.rides as real + 1.0) / 2.0
              && (d.tss - w.tss) as real <= (d.rides as real + 1.0) / 2.0
    {
      var g := Group(acts, DashKey, ks[j]);
      GroupsAgree(acts, DashKey, WeeklyLoad.WeekKey, ks[j]);
      DashRides(g);
      WeeklyLoad.TotalsRides(g);
      DashTssNearExact(g);
    }
  }
}
