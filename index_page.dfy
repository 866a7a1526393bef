/** The helpers of the main page (pages/index.js): the ride-duration text,
    the countdown in days, and the form figures shown when the dashboard has
    no value for today. */
module IndexPage {
  import opened Js
  import Pmc

  /** JavaScript's `%`: the remainder takes the sign of the dividend. */
  function JsRem(a: int, b: int): (r: int)
    requires b > 0
    ensures a >= 0 ==> 0 <= r < b
    ensures a < 0 ==> -b < r <= 0
    ensures a >= 0 ==> r == a % b
  {
    if a >= 0 then a % b else -((-a) % b)
  }

  /** The text `formatDuration` builds. */
  datatype DurationText = NoDuration | HoursMinutes(h: int, m: int) | MinutesOnly(m: int)

  /** `formatDuration(seconds)`: '0:00' when falsy, else whole hours and the
      minutes left over ('Hh Mm'), or minutes alone below an hour. */
  function FormatDuration(seconds: Option<int>): DurationText {
    if seconds.None? || seconds.value == 0 then NoDuration
    else
      var s := seconds.value;
      var h := s / 3600;
      var m := JsRem(s, 3600) / 60;
      if h > 0 then HoursMinutes(h, m) else MinutesOnly(m)
  }

  /** For a positive duration the hours and minutes are the whole part of the
      duration: the seconds left over are fewer than sixty. */
  lemma DurationSplit(s: int)
    requires s > 0
    ensures FormatDuration(Some(s)).HoursMinutes? <==> s >= 3600
    ensures match FormatDuration(Some(s))
            case HoursMinutes(h, m) => 0 <= m < 60 && h * 3600 + m * 60 <= s < h * 3600 + m * 60 + 60
            case MinutesOnly(m) => 0 <= m < 60 && m * 60 <= s < m * 60 + 60
            case NoDuration => false
  {
    var h, r := s / 3600, s % 3600;
    assert s == h * 3600 + r;
    var m := r / 60;
    assert r == m * 60 + r % 60;
  }

  /** A negative duration is shown as minutes only, never as hours. */
  lemma NegativeDurationIsMinutes(s: int)
    requires s < 0
    ensures FormatDuration(Some(s)).MinutesOnly?
    ensures -60 <= FormatDuration(Some(s)).m <= 0
  {
  }

  /** `Math.ceil(x)`. */
  function Ceil(x: real): (n: int)
    ensures x <= n as real < x + 1.0
  {
    -((-x).Floor)
  }

  const MillisPerDay: real := 86400000.0

  /** `daysUntil(dateStr)`, with the target and the current time as
      milliseconds since the epoch. */
  function DaysUntil(target: real, now: real): (n: int)
    ensures n >= 0
    ensures n == 0 <==> target - now <= 0.0
    ensures n > 0 ==> (n - 1) as real * MillisPerDay < target - now <= n as real * MillisPerDay
  {
    var c := Ceil((target - now) / MillisPerDay);
    if c > 0 then c else 0
  }

  /** The countdown never goes up as time passes. */
  lemma DaysUntilMonotone(target: real, now1: real, now2: real)
    requires now1 <= now2
    ensures DaysUntil(target, now2) <= DaysUntil(target, now1)
  {
    var x1, x2 := (target - now1) / MillisPerDay, (target - now2) / MillisPerDay;
    assert x2 <= x1;
  }

  /** The figures of today shown in the header. */
  datatype Today = Today(ctl: real, atl: real, tsb: real)

  /** `data?.today || { ctl: 0, atl: 0, tsb: 0 }`. */
  function TodayOf(today: Option<Today>): (t: Today)
    ensures today.None? ==> t == Today(0.0, 0.0, 0.0)
    ensures today.Some? ==> t == today.value
  {
    if today.Some? then today.value else Today(0.0, 0.0, 0.0)
  }

  /** The TSB figure: a '+' only when positive, and the positive style from
      zero up. */
  datatype TsbText = TsbText(plus: bool, value: real, positiveStyle: bool)

  function TsbShown(tsb: real): (t: TsbText)
    ensures t.plus <==> tsb > 0.0
    ensures t.positiveStyle <==> tsb >= 0.0
    ensures t.value == tsb
  {
    TsbText(tsb > 0.0, tsb, tsb >= 0.0)
  }

  /** Without a value for today the header shows zero form, unsigned but in
      the positive style, and the form band is "Optimal". */
  lemma NoTodayDefaults()
    ensures TsbShown(TodayOf(None).tsb) == TsbText(false, 0.0, true)
    ensures Pmc.GetFormStatus(TodayOf(None).tsb).formLabel == "Optimal"
  {
  }
}
