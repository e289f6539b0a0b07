/**
 * The discrete rules of the analytics page (lib/analytics.ts): which preset
 * and currency the URL selects, which date range and granularity follow
 * from them, the comparison period, the zero guard of the percentage delta,
 * and the walk of the timeline cursor.
 *
 * A date is its local calendar day, an integer day number (one more per
 * day); `sanitizeDate` is therefore the identity on it and `addDays` is
 * addition. `new Date(...)` parsing and `setMonth` are opaque and enter as
 * function parameters.
 */
module Analytics {
  import opened Wrappers
  import opened Text

  datatype Preset = Last7 | Last30 | Last90 | Last12m | Custom
  datatype Currency = MXN | USD
  datatype Granularity = Day | Week | Month

  /** The URL spelling of each preset. */
  function PresetName(p: Preset): string {
    match p
    case Last7 => "last-7"
    case Last30 => "last-30"
    case Last90 => "last-90"
    case Last12m => "last-12m"
    case Custom => "custom"
  }

  const PRESET_NAMES: set<string> := {"last-7", "last-30", "last-90", "last-12m", "custom"}

  /** The `range` query parameter: one of the five names, anything else
      (including none) meaning "last-30". */
  function ParsePreset(range: Option<string>): (p: Preset)
    ensures range.Some? && range.value in PRESET_NAMES ==> PresetName(p) == range.value
    ensures range.None? || range.value !in PRESET_NAMES ==> p == Last30
  {
    var name := range.GetOr("last-30");
    if name == "last-7" then Last7
    else if name == "last-90" then Last90
    else if name == "last-12m" then Last12m
    else if name == "custom" then Custom
    else Last30
  }

  /** Every preset survives the trip through the URL. */
  lemma ParsePresetName(p: Preset)
    ensures ParsePreset(Some(PresetName(p))) == p
  {
  }

  /** The `currency` query parameter: USD exactly when it reads "USD". */
  function ParseCurrency(currency: Option<string>): (c: Currency)
    ensures c == USD <==> currency == Some("USD")
  {
    if currency.GetOr("MXN") == "USD" then USD else MXN
  }

  /** `presetConfig`: how many days each fixed preset covers and how it is bucketed. */
  function PresetConfig(p: Preset): (config: (nat, Granularity))
    requires p != Custom
    ensures config.0 > 0
  {
    match p
    case Last7 => (7, Day)
    case Last30 => (30, Day)
    case Last90 => (90, Week)
    case Last12m => (365, Month)
  }

  /** A date range with its bucket size. */
  datatype Range = Range(start: int, end: int, granularity: Granularity)

  /** `getPresetRange(preset, now)`: the `days` days ending today. */
  function PresetRange(p: Preset, today: int): (r: Range)
    requires p != Custom
    ensures r.end == today && r.start <= r.end
    ensures r.end - r.start + 1 == PresetConfig(p).0
    ensures r.granularity == PresetConfig(p).1
  {
    var (days, granularity) := PresetConfig(p);
    Range(today - (days - 1), today, granularity)
  }

  /** `Math.max(1, dayDiff + 1)`: the number of days a range covers, at least one. */
  function Span(start: int, end: int): (n: nat)
    ensures n >= 1
    ensures start <= end ==> n == end - start + 1
    ensures start > end ==> n == 1
  {
    if end - start + 1 > 1 then end - start + 1 else 1
  }

  /** `getGranularityForCustom`: months beyond 120 days, weeks beyond 45, else days. */
  function CustomGranularity(start: int, end: int): (g: Granularity)
    ensures g == Month <==> Span(start, end) > 120
    ensures g == Week <==> 45 < Span(start, end) <= 120
    ensures g == Day <==> Span(start, end) <= 45
  {
    var span := Span(start, end);
    if span > 120 then Month else if span > 45 then Week else Day
  }

  function Coarseness(g: Granularity): nat {
    match g
    case Day => 0
    case Week => 1
    case Month => 2
  }

  /** A longer custom range is never bucketed more finely than a shorter one. */
  lemma CustomGranularityMonotone(start: int, end: int, start': int, end': int)
    requires Span(start, end) <= Span(start', end')
    ensures Coarseness(CustomGranularity(start, end)) <= Coarseness(CustomGranularity(start', end'))
  {
  }

  /** `parseDateParam`: an absent or empty parameter, or one that does not
      parse, is no date; otherwise its calendar day. */
  function ParseDateParam(value: Option<string>, parseDay: string -> Option<int>): (d: Option<int>)
    ensures !Truthy(value) ==> d.None?
    ensures Truthy(value) ==> d == parseDay(value.value)
  {
    if !Truthy(value) then None else parseDay(value.value)
  }

  /** What `useAnalyticsFilters` returns, without the display label. */
  datatype Filters = Filters(preset: Preset, currency: Currency, start: int, end: int, granularity: Granularity)

  /**
   * `useAnalyticsFilters`: a custom range with both ends given is put in
   * order and bucketed by its length; otherwise the preset's range is used,
   * a custom preset with a missing end falling back to the last 30 days
   * while still reporting itself as custom.
   */
  function ResolveFilters(range: Option<string>, currency: Option<string>, startParam: Option<string>,
                          endParam: Option<string>, parseDay: string -> Option<int>, today: int): (f: Filters)
    ensures f.preset == ParsePreset(range) && f.currency == ParseCurrency(currency)
    ensures f.start <= f.end
    ensures var s, e := ParseDateParam(startParam, parseDay), ParseDateParam(endParam, parseDay);
            f.preset == Custom && s.Some? && e.Some? ==>
              && {f.start, f.end} == {s.value, e.value}
              && f.granularity == CustomGranularity(f.start, f.end)
    ensures var s, e := ParseDateParam(startParam, parseDay), ParseDateParam(endParam, parseDay);
            !(f.preset == Custom && s.Some? && e.Some?) ==>
              var fallback := PresetRange(if f.preset == Custom then Last30 else f.preset, today);
              f.start == fallback.start && f.end == fallback.end && f.granularity == fallback.granularity
  {
    var preset := ParsePreset(range);
    var customStart := ParseDateParam(startParam, parseDay);
    var customEnd := ParseDateParam(endParam, parseDay);
    if preset == Custom && customStart.Some? && customEnd.Some? then
      var (start, end) := if customStart.value > customEnd.value then (customEnd.value, customStart.value)
                          else (customStart.value, customEnd.value);
      Filters(preset, ParseCurrency(currency), start, end, CustomGranularity(start, end))
    else
      var r := PresetRange(if preset == Custom then Last30 else preset, today);
      Filters(preset, ParseCurrency(currency), r.start, r.end, r.granularity)
  }

  /** The comparison period of `useAnalyticsSummary`: it ends the day before
      `start` and covers as many days as the current range. */
  function PreviousPeriod(start: int, end: int): (r: (int, int))
    ensures r.1 == start - 1
    ensures r.0 <= r.1 && r.1 - r.0 + 1 == Span(start, end)
  {
    var previousEnd := start - 1;
    (previousEnd - (Span(start, end) - 1), previousEnd)
  }

  /** For an ordered range the previous period is the adjacent, disjoint
      stretch of the same length, so both together cover twice the days. */
  lemma PreviousPeriodAdjacent(start: int, end: int)
    requires start <= end
    ensures var (ps, pe) := PreviousPeriod(start, end);
            pe + 1 == start && pe - ps == end - start && Span(ps, end) == 2 * Span(start, end)
  {
  }

  /** The previous period of a preset range repeats the preset's day count
      immediately before it. */
  lemma PreviousOfPresetRange(p: Preset, today: int)
    requires p != Custom
    ensures var r := PresetRange(p, today);
            var (ps, pe) := PreviousPeriod(r.start, r.end);
            pe == today - PresetConfig(p).0 && pe - ps + 1 == PresetConfig(p).0
  {
  }

  /** `calculateDelta`: the percentage change, 0 when there is nothing to compare with. */
  function CalculateDelta(current: real, previous: real): (d: real)
    ensures previous == 0.0 ==> d == 0.0
    ensures previous != 0.0 ==> d * previous == (current - previous) * 100.0
  {
    if previous == 0.0 then 0.0 else ((current - previous) / previous) * 100.0
  }

  /** Against a positive baseline the delta is positive, zero or negative as
      the current value is above, equal to or below it. */
  lemma DeltaSignFollowsChange(current: real, previous: real)
    requires previous > 0.0
    ensures CalculateDelta(current, previous) > 0.0 <==> current > previous
    ensures CalculateDelta(current, previous) == 0.0 <==> current == previous
  {
    var d := CalculateDelta(current, previous);
    assert d * previous == (current - previous) * 100.0;
    if d > 0.0 {
      assert d * previous > 0.0;
    } else if d < 0.0 {
      assert d * previous < 0.0;
    }
  }

  // ---------------------------------------------------------------------------
  // The cursor of buildTimeline

  /** The next cursor position for a granularity; `addMonth` is `addMonths(d, 1)`. */
  function Advance(cursor: int, g: Granularity, addMonth: int -> int): (r: int)
    ensures MovesForward(addMonth) ==> r > cursor
  {
    match g
    case Day => cursor + 1
    case Week => cursor + 7
    case Month => addMonth(cursor)
  }

  /** `addMonths(d, 1)` always moves forward. */
  ghost predicate MovesForward(addMonth: int -> int) {
    forall d :: addMonth(d) > d
  }

  /** The days at which the timeline places a point, from `cursor` to `end`. */
  function Cursors(cursor: int, end: int, g: Granularity, addMonth: int -> int): (r: seq<int>)
    requires MovesForward(addMonth)
    ensures cursor <= end <==> r != []
    ensures r != [] ==> r[0] == cursor
    decreases end - cursor
  {
    if cursor > end then [] else [cursor] + Cursors(Advance(cursor, g, addMonth), end, g, addMonth)
  }

  /** The timeline starts at `start` when the range is not empty, stays
      inside the range and moves strictly forward. */
  lemma {:induction false} CursorsAscendWithinRange(cursor: int, end: int, g: Granularity, addMonth: int -> int)
    requires MovesForward(addMonth)
    decreases end - cursor
    ensures var r := Cursors(cursor, end, g, addMonth);
            && (cursor <= end <==> r != [])
            && (r != [] ==> r[0] == cursor)
            && (forall i :: 0 <= i < |r| ==> cursor <= r[i] <= end)
            && (forall i :: 0 <= i < |r| - 1 ==> r[i] < r[i + 1])
  {
    if cursor <= end {
      var next := Advance(cursor, g, addMonth);
      assert next > cursor;
      CursorsAscendWithinRange(next, end, g, addMonth);
    }
  }

  /** Daily buckets: one point per day of the range. */
  lemma {:induction false} DailyPointCount(cursor: int, end: int, addMonth: int -> int)
    requires MovesForward(addMonth) && cursor <= end + 1
    decreases end - cursor
    ensures |Cursors(cursor, end, Day, addMonth)| == end - cursor + 1
  {
    if cursor <= end {
      DailyPointCount(cursor + 1, end, addMonth);
    }
  }

  /** Weekly buckets: one point per started week of the range. */
  lemma {:induction false} WeeklyPointCount(cursor: int, end: int, addMonth: int -> int)
    requires MovesForward(addMonth) && cursor <= end
    decreases end - cursor
    ensures |Cursors(cursor, end, Week, addMonth)| == (end - cursor) / 7 + 1
  {
    if cursor + 7 <= end {
      WeeklyPointCount(cursor + 7, end, addMonth);
    }
  }

  /** The `while (cursor <= end)` loop of `buildTimeline`, keeping the day of
      each point (its income and expense figures are left out). */
  method TimelineDays(start: int, end: int, g: Granularity, addMonth: int -> int) returns (days: seq<int>)
    requires MovesForward(addMonth)
    ensures days == Cursors(start, end, g, addMonth)
  {
    days := [];
    var cursor := start;
    var index := 0;
    while cursor <= end
      invariant days + Cursors(cursor, end, g, addMonth) == Cursors(start, end, g, addMonth)
      invariant index == |days|
      decreases end - cursor
    {
      var next := Advance(cursor, g, addMonth);
      assert Cursors(cursor, end, g, addMonth) == [cursor] + Cursors(next, end, g, addMonth);
      assert days + [cursor] + Cursors(next, end, g, addMonth) == days + ([cursor] + Cursors(next, end, g, addMonth));
      days := days + [cursor];
      cursor := next;
      index := index + 1;
    }
  }
}
