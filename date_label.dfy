/**
 * The relative date shown in the transactions table (lib/date.ts):
 * "Hoy", "Ayer", the weekday name within the last week, the day and month
 * otherwise, followed by " a las " and the time of day.
 *
 * `new Date(...)` and the three `Intl.DateTimeFormat` formatters (es-ES)
 * are opaque and enter as function parameters. A parsed instant is reduced
 * to its local calendar day (an integer day number) and its time of day.
 */
module DateLabel {
  import opened Wrappers
  import opened Text

  /** A parsed instant in local time. */
  datatype Moment = Moment(day: int, minuteOfDay: nat)

  /** The es-ES formatters: weekday `long`, day `numeric` with month `short`,
      and hour with two-digit minute. */
  datatype Formatters = Formatters(weekday: Moment -> string, monthDay: Moment -> string, time: Moment -> string)

  /** Which label a date receives, by its day distance to today. */
  datatype DayKind = Today | Yesterday | LastWeek | Other

  /** The `if / else if` chain: same day, the day before, 2 to 6 days ago,
      anything else (the future included). */
  function Classify(date: Moment, now: Moment): (k: DayKind)
    ensures k == Today <==> date.day == now.day
    ensures k == Yesterday <==> date.day == now.day - 1
    ensures k == LastWeek <==> 2 <= now.day - date.day < 7
    ensures k == Other <==> (now.day - date.day < 0 || now.day - date.day >= 7)
  {
    var diffInDays := now.day - date.day;
    if date.day == now.day then Today
    else if date.day == now.day - 1 then Yesterday
    else if diffInDays >= 2 && diffInDays < 7 then LastWeek
    else Other
  }

  /** Where the first dot of `s` is, `|s|` when there is none. */
  function FirstDot(s: string): (k: nat)
    ensures k <= |s| && '.' !in s[..k]
    ensures k < |s| ==> s[k] == '.'
    ensures k == |s| <==> '.' !in s
  {
    if s == [] then 0
    else if s[0] == '.' then 0
    else
      assert s == [s[0]] + s[1..];
      assert s[..FirstDot(s[1..]) + 1] == [s[0]] + s[1..][..FirstDot(s[1..])];
      FirstDot(s[1..]) + 1
  }

  /** `s.replace(".", "")`: the first dot goes, the rest of `s` stays in place. */
  function RemoveFirstDot(s: string): (r: string)
    ensures '.' !in s ==> r == s
    ensures '.' in s ==> |r| == |s| - 1 && r[..FirstDot(s)] == s[..FirstDot(s)] && r[FirstDot(s)..] == s[FirstDot(s) + 1..]
  {
    var k := FirstDot(s);
    if k == |s| then s else s[..k] + s[k + 1..]
  }

  /** `formatMonthDay`: "15 ene." becomes "15 ene". */
  function MonthDayLabel(f: Formatters, date: Moment): (l: string)
    ensures |l| <= |f.monthDay(date)|
    ensures '.' !in f.monthDay(date) ==> l == ToLower(f.monthDay(date))
  {
    RemoveFirstDot(ToLower(f.monthDay(date)))
  }

  /** The label chosen for `date`. */
  function DayLabel(f: Formatters, date: Moment, now: Moment): (l: string)
    ensures Classify(date, now) == Today ==> l == "Hoy"
    ensures Classify(date, now) == Yesterday ==> l == "Ayer"
    ensures Classify(date, now) == LastWeek ==> l == ToLower(f.weekday(date))
    ensures Classify(date, now) == Other ==> l == MonthDayLabel(f, date)
  {
    match Classify(date, now)
    case Today => "Hoy"
    case Yesterday => "Ayer"
    case LastWeek => ToLower(f.weekday(date))
    case Other => MonthDayLabel(f, date)
  }

  /**
   * `formatTransactionDate(dateString, now)`: the input itself when it does
   * not parse, otherwise the day label, " a las " and the time.
   */
  function FormatTransactionDate(dateString: string, now: Moment, parse: string -> Option<Moment>, f: Formatters): (r: string)
    ensures parse(dateString).None? ==> r == dateString
    ensures parse(dateString).Some? ==>
              var date := parse(dateString).value;
              r == DayLabel(f, date, now) + " a las " + f.time(date)
  {
    match parse(dateString)
    case None => dateString
    case Some(date) => DayLabel(f, date, now) + " a las " + f.time(date)
  }

  /** A date later today and one early yesterday get different words. */
  lemma TodayAndYesterdayDiffer(f: Formatters, today: Moment, yesterday: Moment, now: Moment)
    requires today.day == now.day && yesterday.day == now.day - 1
    ensures DayLabel(f, today, now) == "Hoy" && DayLabel(f, yesterday, now) == "Ayer"
  {
  }

  /** A week ago or more, and any future day, shows the day and month. */
  lemma DistantDatesShowMonthDay(f: Formatters, date: Moment, now: Moment)
    requires date.day <= now.day - 7 || date.day > now.day
    ensures DayLabel(f, date, now) == MonthDayLabel(f, date)
  {
  }
}
