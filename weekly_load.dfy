/** Weekly training-load totals as lib/pmc.js `weeklyTSS` computes them:
    activities are bucketed by the Monday on or before their local date, and
    each bucket adds up load, hours and the number of rides. */
module WeeklyLoad {
  import opened Js
  import opened Activities
  import opened Grouping

  datatype WeekRow = WeekRow(week: int, tss: int, hours: real, rides: nat)

  /** The running totals kept in the `weeks` dictionary for one week. */
  datatype Totals = Totals(tss: real, hours: real, rides: nat)

  /** The Monday on or before day `d`: `d - (getDay() === 0 ? 6 : getDay() - 1)`. */
  function MondayOf(d: int): (m: int)
    ensures Weekday(m) == 1
    ensures d - 6 <= m <= d
  {
    var w := Weekday(d);
    d - (if w == 0 then 6 else w - 1)
  }

  /** There is exactly one Monday among the seven days ending with `d`. */
  lemma MondayOfUnique(d: int, m: int)
    requires Weekday(m) == 1 && d - 6 <= m <= d
    ensures m == MondayOf(d)
  {
  }

  /** Sunday belongs to the week that began six days earlier. */
  lemma SundayGoesBackSixDays(d: int)
    requires Weekday(d) == 0
    ensures MondayOf(d) == d - 6
  {
  }

  /** The day read from `new Date(act.start_date_local || act.date)`; `None`
      when that Date is invalid, in which case `toISOString` throws. A null
      that `||` lands on gives the epoch, day 0. */
  function ActivityDay(a: Activity): (r: Option<int>)
    ensures !Falsy(a.startDateLocal) ==>
              (r.Some? <==> a.startDateLocal.Date?) && (r.Some? ==> r.value == a.startDateLocal.day)
    ensures Falsy(a.startDateLocal) ==>
              (r.Some? <==> a.date.Date? || a.date.Null?)
              && (a.date.Date? ==> r == Some(a.date.day))
              && (a.date.Null? ==> r == Some(0))
  {
    var t := if Falsy(a.startDateLocal) then a.date else a.startDateLocal;
    match t
    case Date(d) => Some(d)
    case Null => Some(0)
    case _ => None
  }

  /** An activity whose dates fall back to a null `date` is counted in the
      week of the epoch, which began on Monday 1969-12-29 (day -3). */
  lemma NullDateInEpochWeek(a: Activity)
    requires Falsy(a.startDateLocal) && a.date.Null?
    ensures ActivityDay(a) == Some(0)
    ensures WeekKey(a) == -3
  {
  }

  /** Every activity has a readable date, so `weeklyTSS` does not throw. */
  predicate Dated(acts: seq<Activity>) {
    forall i :: 0 <= i < |acts| ==> ActivityDay(acts[i]).Some?
  }

  /** The week an activity is counted in; only consulted for activities with a date. */
  function WeekKey(a: Activity): int {
    match ActivityDay(a)
    case Some(d) => MondayOf(d)
    case None => 0
  }

  /** Hours of one activity: `(moving_time || elapsed_time || 0) / 3600`. */
  function Hours(a: Activity): real {
    FirstTruthy(a.movingTime, a.elapsedTime) / 3600.0
  }

  /** What the accumulation loop holds for a group of activities. */
  function TotalsOf(g: seq<Activity>): Totals
  {
    if g == [] then Totals(0.0, 0.0, 0)
    else
      var t := TotalsOf(g[..|g| - 1]);
      var a := g[|g| - 1];
      Totals(t.tss + Load(a), t.hours + Hours(a), t.rides + 1)
  }

  lemma TotalsSnoc(g: seq<Activity>, a: Activity)
    ensures TotalsOf(g + [a])
         == Totals(TotalsOf(g).tss + Load(a), TotalsOf(g).hours + Hours(a), TotalsOf(g).rides + 1)
  {
    assert (g + [a])[..|g|] == g;
  }

  lemma {:induction false} TotalsRides(g: seq<Activity>)
    ensures TotalsOf(g).rides == |g|
  {
    if g != [] {
      TotalsRides(g[..|g| - 1]);
    }
  }

  /** The row emitted for week `k`: load rounded once after summing, hours to one decimal. */
  function WeekOf(acts: seq<Activity>, k: int): WeekRow
  {
    var t := TotalsOf(Group(acts, WeekKey, k));
    WeekRow(k, Round(t.tss), Round1(t.hours), t.rides)
  }

  /** The week key of every activity, in input order. */
  function KeysOf(acts: seq<Activity>): (ks: seq<int>)
    ensures |ks| == |acts|
    ensures forall i :: 0 <= i < |acts| ==> ks[i] == WeekKey(acts[i])
  {
    if acts == [] then [] else KeysOf(acts[..|acts| - 1]) + [WeekKey(acts[|acts| - 1])]
  }

  /** The week keys of `acts`, each once, ascending. */
  function WeekKeys(acts: seq<Activity>): (ks: seq<int>)
    ensures StrictlyAscending(ks)
    ensures forall k :: k in ks <==> k in KeysOf(acts)
  {
    SortedKeys(KeysOf(acts))
  }

  /** The rows for the weeks `ks`, in that order. */
  function Rows(acts: seq<Activity>, ks: seq<int>): (rows: seq<WeekRow>)
    ensures |rows| == |ks|
    ensures forall j :: 0 <= j < |ks| ==> rows[j] == WeekOf(acts, ks[j])
  {
    seq(|ks|, j requires 0 <= j < |ks| => WeekOf(acts, ks[j]))
  }

  /** The result of `weeklyTSS` on activities that all have a date. */
  function Weekly(acts: seq<Activity>): seq<WeekRow>
  {
    Rows(acts, WeekKeys(acts))
  }

  /** What the `weeks` dictionary and its insertion order hold once the
      activities of `prefix` have been added. */
  ghost predicate Accumulated(prefix: seq<Activity>, weeks: map<int, Totals>, order: seq<int>)
  {
    && Dated(prefix)
    && (forall k :: k in weeks <==> k in order)
    && (forall k :: k in order <==> k in KeysOf(prefix))
    && (forall k :: k in weeks ==> weeks[k] == TotalsOf(Group(prefix, WeekKey, k)))
  }

  lemma DatedSnoc(prefix: seq<Activity>, a: Activity)
    requires Dated(prefix) && ActivityDay(a).Some?
    ensures Dated(prefix + [a])
  {
    forall i | 0 <= i < |prefix + [a]| ensures ActivityDay((prefix + [a])[i]).Some? {
      if i < |prefix| {
        assert (prefix + [a])[i] == prefix[i];
      }
    }
  }

  lemma KeysSnoc(prefix: seq<Activity>, a: Activity)
    ensures KeysOf(prefix + [a]) == KeysOf(prefix) + [WeekKey(a)]
  {
    assert (prefix + [a])[..|prefix|] == prefix;
  }

  /** A week no activity of `prefix` falls in has an empty group. */
  lemma AbsentWeek(prefix: seq<Activity>, key: int)
    requires key !in KeysOf(prefix)
    ensures Group(prefix, WeekKey, key) == []
  {
    forall i | 0 <= i < |prefix| ensures WeekKey(prefix[i]) != key {
      assert KeysOf(prefix)[i] == WeekKey(prefix[i]);
    }
    GroupOfAbsentKey(prefix, WeekKey, key);
  }

  /** The dictionary after adding activity `a` to week `key`, starting that
      week from zero totals when it is new. */
  function AddTo(weeks: map<int, Totals>, key: int, a: Activity): (w: map<int, Totals>)
    ensures w.Keys == weeks.Keys + {key}
  {
    var t := if key in weeks then weeks[key] else Totals(0.0, 0.0, 0);
    weeks[key := Totals(t.tss + Load(a), t.hours + Hours(a), t.rides + 1)]
  }

  /** The insertion order after meeting week `key`. */
  function Enqueue(order: seq<int>, weeks: map<int, Totals>, key: int): seq<int>
  {
    if key in weeks then order else order + [key]
  }

  /** Adding an activity to the totals of its week `key` keeps the totals of
      week `k` equal to the totals of its group: `g` before the activity,
      `g'` after. */
  lemma TotalsStepAt(g: seq<Activity>, g': seq<Activity>, a: Activity, key: int, weeks: map<int, Totals>, k: int)
    requires g' == if k == key then g + [a] else g
    requires k in weeks ==> weeks[k] == TotalsOf(g)
    requires k == key && key !in weeks ==> g == []
    requires k in AddTo(weeks, key, a)
    ensures AddTo(weeks, key, a)[k] == TotalsOf(g')
  {
    if k == key {
      TotalsSnoc(g, a);
    }
  }

  lemma TotalsStep(prefix: seq<Activity>, a: Activity, key: int, weeks: map<int, Totals>)
    requires key == WeekKey(a)
    requires forall k :: k in weeks ==> weeks[k] == TotalsOf(Group(prefix, WeekKey, k))
    requires key !in weeks ==> Group(prefix, WeekKey, key) == []
    ensures forall k :: k in AddTo(weeks, key, a) ==> AddTo(weeks, key, a)[k] == TotalsOf(Group(prefix + [a], WeekKey, k))
  {
    forall k | k in AddTo(weeks, key, a) ensures AddTo(weeks, key, a)[k] == TotalsOf(Group(prefix + [a], WeekKey, k)) {
      GroupSnoc(prefix, a, WeekKey, k);
      TotalsStepAt(Group(prefix, WeekKey, k), Group(prefix + [a], WeekKey, k), a, key, weeks, k);
    }
  }

  /** The dictionary's keys and its insertion order stay the same set as the
      week keys seen so far. */
  lemma OrderStep(ks: seq<int>, key: int, weeks: map<int, Totals>, order: seq<int>, a: Activity)
    requires forall k :: k in weeks <==> k in order
    requires forall k :: k in order <==> k in ks
    ensures forall k :: k in AddTo(weeks, key, a) <==> k in Enqueue(order, weeks, key)
    ensures forall k :: k in Enqueue(order, weeks, key) <==> k in ks + [key]
  {
  }

  /** Adding one dated activity to its week keeps the dictionary in step. */
  lemma AccumulateStep(prefix: seq<Activity>, a: Activity, key: int, weeks: map<int, Totals>, order: seq<int>)
    requires Accumulated(prefix, weeks, order) && ActivityDay(a).Some? && key == WeekKey(a)
    ensures Accumulated(prefix + [a], AddTo(weeks, key, a), Enqueue(order, weeks, key))
  {
    DatedSnoc(prefix, a);
    KeysSnoc(prefix, a);
    if key !in weeks {
      AbsentWeek(prefix, key);
    }
    TotalsStep(prefix, a, key, weeks);
    OrderStep(KeysOf(prefix), key, weeks, order, a);
  }

  /** The body of the `forEach` for an activity of week `key`: the week's
      entry is created when missing, then its load, hours and rides grow. */
  method AddToWeek(weeks: map<int, Totals>, order: seq<int>, key: int, a: Activity)
    returns (weeks': map<int, Totals>, order': seq<int>)
    ensures weeks' == AddTo(weeks, key, a)
    ensures order' == Enqueue(order, weeks, key)
  {
    weeks', order' := weeks, order;
    if key !in weeks' {
      weeks' := weeks'[key := Totals(0.0, 0.0, 0)];
      order' := order' + [key];
    }
    var t := weeks'[key];
    weeks' := weeks'[key := Totals(t.tss + Load(a), t.hours + Hours(a), t.rides + 1)];
  }

  /** One activity whose date reads as `day`, added to the week of its Monday. */
  method AddActivity(ghost prefix: seq<Activity>, weeks: map<int, Totals>, order: seq<int>, a: Activity, day: int)
    returns (weeks': map<int, Totals>, order': seq<int>)
    requires Accumulated(prefix, weeks, order) && ActivityDay(a) == Some(day)
    ensures Accumulated(prefix + [a], weeks', order')
  {
    var key := MondayOf(day);
    weeks', order' := AddToWeek(weeks, order, key, a);
    AccumulateStep(prefix, a, key, weeks, order);
  }

  /** The `forEach` loop of `weeklyTSS`: fills the `weeks` dictionary, keeping
      the keys in insertion order. `ok` is false when an activity has no
      readable date. */
  method Accumulate(acts: seq<Activity>) returns (ok: bool, weeks: map<int, Totals>, order: seq<int>)
    ensures ok <==> Dated(acts)
    ensures ok ==> forall k :: k in weeks <==> k in KeysOf(acts)
    ensures ok ==> forall k :: k in order <==> k in KeysOf(acts)
    ensures ok ==> forall k :: k in weeks ==> weeks[k] == TotalsOf(Group(acts, WeekKey, k))
  {
    weeks, order := map[], [];
    for i := 0 to |acts|
      invariant Accumulated(acts[..i], weeks, order)
    {
      var a := acts[i];
      var day := ActivityDay(a);
      if day.None? {
        return false, weeks, order;
      }
      assert acts[..i + 1] == acts[..i] + [a];
      weeks, order := AddActivity(acts[..i], weeks, order, a, day.value);
    }
    assert acts[..|acts|] == acts;
    return true, weeks, order;
  }

  /** The second half of `weeklyTSS`: one row per week key, load rounded to
      a whole number and hours to one decimal. */
  method EmitRows(acts: seq<Activity>, weeks: map<int, Totals>, ks: seq<int>) returns (rows: seq<WeekRow>)
    requires forall k :: k in ks ==> k in weeks && weeks[k] == TotalsOf(Group(acts, WeekKey, k))
    ensures rows == Rows(acts, ks)
  {
    rows := [];
    for j := 0 to |ks|
      invariant |rows| == j
      invariant forall m :: 0 <= m < j ==> rows[m] == WeekOf(acts, ks[m])
    {
      var t := weeks[ks[j]];
      rows := rows + [WeekRow(ks[j], Round(t.tss), Round1(t.hours), t.rides)];
    }
  }

  /** `weeklyTSS(activities)`: `None` stands for the RangeError thrown when an
      activity has no readable date. */
  method WeeklyTss(acts: seq<Activity>) returns (r: Option<seq<WeekRow>>)
    ensures r == if Dated(acts) then Some(Weekly(acts)) else None
  {
    var ok, weeks, order := Accumulate(acts);
    if !ok {
      return None;
    }
    var ks := SortedKeys(order);
    StrictlyAscendingUnique(ks, WeekKeys(acts));
    var rows := EmitRows(acts, weeks, ks);
    return Some(rows);
  }

  /** Rows come out in ascending week order, one per week. */
  lemma WeeklyAscending(acts: seq<Activity>)
    ensures forall i, j :: 0 <= i < j < |Weekly(acts)| ==> Weekly(acts)[i].week < Weekly(acts)[j].week
  {
  }

  /** Each activity is counted in the week that starts on the Monday on or
      before its date, and that week is among the rows. */
  lemma {:induction false} ActivityInItsWeek(acts: seq<Activity>, i: nat)
    requires Dated(acts) && i < |acts|
    ensures exists j :: 0 <= j < |Weekly(acts)| && Weekly(acts)[j].week == MondayOf(ActivityDay(acts[i]).value)
    ensures acts[i] in Group(acts, WeekKey, MondayOf(ActivityDay(acts[i]).value))
  {
    var ks := WeekKeys(acts);
    assert KeysOf(acts)[i] == WeekKey(acts[i]);
    assert WeekKey(acts[i]) in ks;
    var j :| 0 <= j < |ks| && ks[j] == WeekKey(acts[i]);
    assert Weekly(acts)[j].week == ks[j];
    InGroup(acts, WeekKey, i);
  }

  function RidesTotal(rows: seq<WeekRow>): nat
  {
    if rows == [] then 0 else rows[0].rides + RidesTotal(rows[1..])
  }

  lemma {:induction false} RidesTotalIsGroupSizes(acts: seq<Activity>, ks: seq<int>)
    ensures RidesTotal(Rows(acts, ks)) == GroupSizes(acts, WeekKey, ks)
  {
    if ks != [] {
      TotalsRides(Group(acts, WeekKey, ks[0]));
      RidesTotalIsGroupSizes(acts, ks[1..]);
      assert Rows(acts, ks)[1..] == Rows(acts, ks[1..]);
    }
  }

  /** Bucketing loses and duplicates no activity: the rides of all weeks add
      up to the number of activities. */
  lemma RidesAddUp(acts: seq<Activity>)
    ensures RidesTotal(Weekly(acts)) == |acts|
  {
    var ks := WeekKeys(acts);
    RidesTotalIsGroupSizes(acts, ks);
    assert Distinct(ks);
    GroupSizesCount(acts, WeekKey, ks);
  }
}
