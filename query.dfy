/** The sidebar's time-window choice and the query-parameter map sent to
    the USGS event service (`fetch_earthquake_data`, `fetch_and_store_data`). */
module Query {
  import opened Outcomes
  import opened Calendar
  import opened Timestamps

  /** The four entries of the "Select Time Period" menu. */
  datatype TimeFilter = Last24Hours | Past7Days | Past30Days | CustomDateRange

  /** A window bound: the presets produce `datetime` values, the date
      pickers produce plain `date` values. */
  datatype Moment = At(dateTime: DateTime) | On(day: Date) {
    function Day(): Date {
      match this
      case At(t) => t.date
      case On(d) => d
    }
  }

  predicate IsPyMoment(m: Moment) {
    match m
    case At(t) => IsPyDateTime(t)
    case On(d) => IsPyDate(d)
  }

  /** How far back each preset reaches. */
  function PresetDays(filter: TimeFilter): nat
    requires filter != CustomDateRange
  {
    match filter
    case Last24Hours => 1
    case Past7Days => 7
    case Past30Days => 30
  }

  /** `t - timedelta(days=k)`: same clock time, `k` days earlier. */
  function DaysEarlier(t: DateTime, k: nat): (r: Result<DateTime>)
    requires IsPyDateTime(t)
    ensures r.Ok? <==> Ordinal(t.date) - k >= 1
    ensures r.Ok? ==> IsPyDateTime(r.value) && Ordinal(r.value.date) == Ordinal(t.date) - k
    ensures r.Ok? ==> (r.value.hour, r.value.minute, r.value.second) == (t.hour, t.minute, t.second)
    ensures r.Ok? ==> EpochSeconds(r.value) == EpochSeconds(t) - k * 86400
  {
    PyDateRange(t.date);
    var d :- AddDays(t.date, -(k as int));
    Ok(t.(date := d))
  }

  /** The sidebar's (start_date, end_date) for a menu choice, given the
      current instant `now` and the two date pickers' values. The custom
      branch still evaluates the start picker's default `now - 30 days`,
      which can only fail in January of year 1. */
  function TimeWindow(filter: TimeFilter, now: DateTime, pickedStart: Date, pickedEnd: Date)
    : (r: Result<(Moment, Moment)>)
    requires IsPyDateTime(now) && IsPyDate(pickedStart) && IsPyDate(pickedEnd)
    ensures r.Ok? ==> IsPyMoment(r.value.0) && IsPyMoment(r.value.1)
  {
    if filter == CustomDateRange then
      var _ :- DaysEarlier(now, 30);
      Ok((On(pickedStart), On(pickedEnd)))
    else
      var start :- DaysEarlier(now, PresetDays(filter));
      Ok((At(start), At(now)))
  }

  /** The presets end at `now` and start exactly 1, 7 or 30 days earlier,
      at the same clock time; they fail only when that start would fall
      before 0001-01-01. */
  lemma PresetWindow(filter: TimeFilter, now: DateTime, pickedStart: Date, pickedEnd: Date)
    requires IsPyDateTime(now) && IsPyDate(pickedStart) && IsPyDate(pickedEnd)
    requires filter != CustomDateRange
    ensures var r := TimeWindow(filter, now, pickedStart, pickedEnd);
      && (r.Ok? <==> Ordinal(now.date) > PresetDays(filter))
      && (r.Err? ==> r.error == DateOverflow)
      && (r.Ok? ==>
            && r.value.1 == At(now)
            && r.value.0.At?
            && EpochSeconds(r.value.0.dateTime) == EpochSeconds(now) - PresetDays(filter) * 86400
            && Ordinal(r.value.0.Day()) == Ordinal(now.date) - PresetDays(filter))
  {
  }

  /** The custom range passes both picked dates through unchanged, in
      either order: nothing checks that the start is not after the end. */
  lemma CustomWindow(now: DateTime, pickedStart: Date, pickedEnd: Date)
    requires IsPyDateTime(now) && IsPyDate(pickedStart) && IsPyDate(pickedEnd)
    ensures var r := TimeWindow(CustomDateRange, now, pickedStart, pickedEnd);
      && (r.Ok? <==> Ordinal(now.date) > 30)
      && (r.Ok? ==> r.value == (On(pickedStart), On(pickedEnd)))
  {
  }

  /** A query-parameter value: a string or a decimal number. */
  datatype Param = Text(text: string) | Number(number: real)

  /** The fixed bounding box around Ethiopia. */
  const MinLatitude: real := 3.4
  const MaxLatitude: real := 14.9
  const MinLongitude: real := 32.9
  const MaxLongitude: real := 47.9

  const ParamNames: set<string> := {
    "format", "starttime", "endtime", "minmagnitude", "maxmagnitude",
    "minlatitude", "maxlatitude", "minlongitude", "maxlongitude"
  }

  /** The `params` dict of `fetch_earthquake_data`. */
  function QueryParams(starttime: string, endtime: string, minMagnitude: real, maxMagnitude: real)
    : (p: map<string, Param>)
    ensures p.Keys == ParamNames
    ensures p["format"] == Text("geojson")
    ensures p["starttime"] == Text(starttime) && p["endtime"] == Text(endtime)
    ensures p["minmagnitude"] == Number(minMagnitude) && p["maxmagnitude"] == Number(maxMagnitude)
    ensures p["minlatitude"] == Number(3.4) && p["maxlatitude"] == Number(14.9)
    ensures p["minlongitude"] == Number(32.9) && p["maxlongitude"] == Number(47.9)
  {
    map[
      "format" := Text("geojson"),
      "starttime" := Text(starttime),
      "endtime" := Text(endtime),
      "minmagnitude" := Number(minMagnitude),
      "maxmagnitude" := Number(maxMagnitude),
      "minlatitude" := Number(MinLatitude),
      "maxlatitude" := Number(MaxLatitude),
      "minlongitude" := Number(MinLongitude),
      "maxlongitude" := Number(MaxLongitude)
    ]
  }

  /** `fetch_and_store_data`'s call: both bounds as "%Y-%m-%d" (their time
      of day dropped), magnitudes unchanged. */
  function WindowParams(start: Moment, end: Moment, minMagnitude: real, maxMagnitude: real)
    : (p: map<string, Param>)
    requires IsPyMoment(start) && IsPyMoment(end)
  {
    QueryParams(FormatDate(start.Day()), FormatDate(end.Day()), minMagnitude, maxMagnitude)
  }

  /** The dates in the request are exactly the window's calendar days: the
      "%Y-%m-%d" strings read back to those days, whatever the clock time
      and whatever the order of the bounds or of the magnitudes. */
  lemma WindowParamsDates(start: Moment, end: Moment, minMagnitude: real, maxMagnitude: real)
    requires IsPyMoment(start) && IsPyMoment(end)
    ensures var p := WindowParams(start, end, minMagnitude, maxMagnitude);
      && p.Keys == ParamNames
      && p["starttime"].Text? && ParseDate(p["starttime"].text) == Some(start.Day())
      && p["endtime"].Text? && ParseDate(p["endtime"].text) == Some(end.Day())
      && p["minmagnitude"] == Number(minMagnitude) && p["maxmagnitude"] == Number(maxMagnitude)
  {
    ParseFormatDate(start.Day());
    ParseFormatDate(end.Day());
  }
}
