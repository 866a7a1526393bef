/** The activity records returned by the training-log service, as the weekly
    aggregations read them, and the calendar arithmetic they use. */
module Activities {
  import opened Js

  /** A date field as `new Date(value)` sees it. `Absent` stands for
      undefined and the empty string, which give an invalid Date; `Null` for
      null, which is falsy too but gives the epoch, 1970-01-01;
      `Unparseable` for text that gives an invalid Date; `Date(day)` for a
      parseable date, as a day number (day 0 is 1970-01-01). */
  datatype DateText = Absent | Null | Unparseable | Date(day: int)

  /** The date values `||` passes over. */
  predicate Falsy(t: DateText) {
    t.Absent? || t.Null?
  }

  datatype Activity = Activity(
    startDateLocal: DateText,
    date: DateText,
    icuTrainingLoad: Num,
    tss: Num,
    movingTime: Num,
    elapsedTime: Num,
    zoneTimes: Option<map<string, Num>>)

  /** `Date.prototype.getDay()`: 0 for Sunday, 1 for Monday, ... 6 for Saturday.
      Day 0 (1970-01-01) was a Thursday. */
  function Weekday(d: int): (w: int)
    ensures 0 <= w < 7
  {
    (d + 4) % 7
  }

  lemma WeekdayNext(d: int)
    ensures Weekday(d + 1) == (Weekday(d) + 1) % 7
  {
  }

  /** The training load of an activity: `icu_training_load || tss || 0`. */
  function Load(a: Activity): (r: real)
    ensures Truthy(a.icuTrainingLoad) ==> r == a.icuTrainingLoad.value
    ensures !Truthy(a.icuTrainingLoad) ==> r == OrZero(a.tss)
  {
    FirstTruthy(a.icuTrainingLoad, a.tss)
  }
}
