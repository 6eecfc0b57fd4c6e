# Ethiopian real-time earthquake dashboard: pipeline model

The dashboard (`app.py`) asks the USGS FDSN event service for earthquakes
inside a fixed bounding box around Ethiopia. The user picks a time window
(last 24 hours, past 7 days, past 30 days or a custom date range) and a
magnitude range. The dashboard flattens each GeoJSON feature of the reply
into a table row whose time is written with a 12-hour clock. It then counts
the rows per calendar day for a bar chart.

This Dafny project models that pipeline:

- `outcomes.dfy` (`Outcomes`): the `Result`/`Option` wrappers, plus the Python and pandas exceptions the pipeline can raise, named as `Failure` values.
- `calendar.dfy` (`Calendar`): the proleptic Gregorian calendar of Python's `datetime`, restricted to years 1..9999.
  - Day ordinals (0001-01-01 is day 1) and their inverse.
  - `date + timedelta(days=k)`, with its `OverflowError`.
  - The next calendar day.
- `timestamp.dfy` (`Timestamps`): three pieces.
  - `datetime.utcfromtimestamp` on epoch seconds and on epoch milliseconds.
  - `strftime('%Y-%m-%d')`, and `convert_to_am_pm`, i.e. `strftime('%Y-%m-%d %I:%M:%S %p')`.
  - Reading the 12-hour layout back.
- `query.dfy` (`Query`): the sidebar's time window and the `params` dict of `fetch_earthquake_data` (format, dates, magnitudes, bounding box).
- `normalize.dfy` (`Normalize`): the loop that turns the decoded JSON reply into rows.
  - The decoded JSON is a datatype, so that each `.get`, index and iteration either succeeds or raises exactly as Python would.
  - The loop is a method with a loop invariant.
  - The first feature that raises aborts the whole batch.
- `daily.dfy` (`Daily`): the "Daily Earthquake Occurrences" block.
  - `pd.to_datetime` on the time column, within pandas' nanosecond range.
  - `.dt.date`.
  - `value_counts().sort_index()`.
  - The rule that pads a single-date table with a zero count for the next day.

Three behaviours of the code are worth stating outright:

- A feature without `properties.time` makes the loop raise: `None / 1000.0` is a `TypeError`.
- A geometry with fewer than three coordinates makes `coordinates[2]` raise an `IndexError`.
- A custom range is passed on unchecked, even when the start is after the end.

Section 3.1.1 of RFC 7946 orders a GeoJSON position longitude, latitude, then an
optional third element; the USGS feed puts the depth there, and the code reads
it as depth.

## Model

| member | source | states |
|---|---|---|
| Calendar.Ordinal | app.py:116 | `date.toordinal()`; its properties are in `OrdinalRoundTrip`, `OrdinalOrder` and `PyDateRange` |
| Calendar.DateOfOrdinal | app.py:116 | the day number of the result is the input: the civil date of a day number, which `utcfromtimestamp` needs |
| Calendar.OrdinalRoundTrip | app.py:116 | day number to date is the inverse of date to day number, for every valid date |
| Calendar.OrdinalOrder | app.py:317 | dates sort in the order of their day numbers, and equal dates have equal day numbers (the order `sort_index` uses) |
| Calendar.PyDateRange | app.py:116 | a date lies in years 1..9999 exactly when its day number lies in 1..3652059 |
| Calendar.AddDays | app.py:322 | `date + timedelta(days=k)` succeeds exactly when the shifted day number stays in 1..3652059; the result is a Python date that many days away; otherwise it is `OverflowError` |
| Calendar.NextDay | app.py:322 | adding one day gives the calendar successor (rolling over month and year), except on 9999-12-31, where it overflows |
| Calendar.Successor | app.py:322 | the next calendar day, written out; see `SuccessorOrdinal`, `SuccessorIsNext` and `NextDay` |
| Calendar.SuccessorOrdinal | app.py:322 | the calendar successor of a date is a valid date whose day number is one more |
| Calendar.SuccessorIsNext | app.py:322 | the successor comes after the day, and no date lies strictly between them |
| Timestamps.UtcFromTimestamp | app.py:116 | succeeds exactly for epoch seconds whose UTC date lies in years 1..9999; the result is a valid date-time whose epoch seconds are the input |
| Timestamps.UtcFromTimestampOfEpochSeconds | app.py:116 | every Python date-time is what `utcfromtimestamp` returns for its own epoch seconds |
| Timestamps.EpochSecondsInjective | app.py:116 | two date-times with the same epoch seconds are equal |
| Timestamps.UtcFromMillis | app.py:116 | epoch milliseconds give the date-time of their whole second: its epoch seconds times 1000 lie within 999 ms below the input; it fails exactly outside Python's year range |
| Timestamps.Hour12 | app.py:91 | `%I` lies in 1..12 and agrees with the hour of day modulo 12 |
| Timestamps.FormatTimestamp | app.py:90-91 | the string has 22 characters, starts with the `%Y-%m-%d` date, and ends in "AM" exactly when the hour is before noon |
| Timestamps.TwelveHourClock | app.py:90-91 | the `%I` field reads as a number in 1..12 that agrees with the hour of day modulo 12, so both midnight and noon read "12" |
| Timestamps.MeridiemSuffix | app.py:90-91 | the `%p` suffix is "AM" exactly before noon and "PM" exactly from noon on, so midnight is "12 ... AM" and noon "12 ... PM" |
| Timestamps.Hour24OfHour12 | app.py:91 | the `%I` hour together with its `%p` suffix determines the hour of day |
| Timestamps.ParseTimestamp | app.py:311 | whatever it reads is a valid date with a clock time in range |
| Timestamps.FormatDate | app.py:133-134 | `strftime("%Y-%m-%d")`; see `ParseFormatDate` for its round trip |
| Timestamps.ParseFormatDate | app.py:133-134 | the `%Y-%m-%d` string of a date reads back as that date |
| Timestamps.ParseFormatTimestamp | app.py:90-91 | the 12-hour string reads back as the whole date-time: the 12-hour clock and its AM/PM suffix lose nothing |
| Query.DaysEarlier | app.py:187-191 | `now - timedelta(days=k)` keeps the clock time, moves the day number back by k and the epoch seconds back by k*86400, and fails exactly when that day would precede 0001-01-01 |
| Query.TimeWindow | app.py:181-191 | both bounds of the window are valid Python dates or date-times |
| Query.PresetWindow | app.py:184-191 | the presets end at `now` and start 1, 7 or 30 days earlier at the same clock time; they fail only with the date overflow |
| Query.CustomWindow | app.py:181-183 | the custom range returns both picked dates unchanged, in whatever order; nothing checks that the start is not after the end |
| Query.QueryParams | app.py:97-107 | the map has exactly the nine keys; format is "geojson"; dates and magnitudes are passed through; the bounding box is 3.4/14.9/32.9/47.9 |
| Query.WindowParams | app.py:131-137 | the request parameters of a window; see `WindowParamsDates` and `QueryParams` |
| Query.WindowParamsDates | app.py:131-137 | the `starttime`/`endtime` strings read back as the window's calendar days, whatever their clock time and order; the magnitudes are unchanged |
| Normalize.Get | app.py:113-115 | `.get` succeeds exactly on a dict, giving the value or the default; on anything else it raises `AttributeError` |
| Normalize.Index | app.py:119-121 | indexing succeeds on a list exactly when the index is in range, giving that element |
| Normalize.Elements | app.py:112 | iterating a list yields its elements |
| Normalize.TimeSeconds | app.py:116 | an integer time gives its milliseconds floored to whole seconds; a missing (None) time raises `TypeError` |
| Normalize.Features | app.py:110 | `data.get('features', [])` iterated: a non-dict reply raises `AttributeError`, a missing key gives no features, and a list gives its items |
| Normalize.NormalizeFeature | app.py:113-124 | the loop body for one feature; see `FieldMapping`, `MissingTimeFails`, `ShortCoordinatesFail` and `RecordTimeReadsBack` |
| Normalize.FieldMapping | app.py:112-124 | a well-formed feature gives a row exactly when it has at least three coordinates and a time in Python's range; then longitude = coordinates[0], latitude = coordinates[1], depth = coordinates[2], mag and place unchanged, and time = the 12-hour string of the UTC instant |
| Normalize.MissingTimeFails | app.py:113-116 | a feature with no `properties`, no time or a null time raises `TypeError` instead of giving a row |
| Normalize.ShortCoordinatesFail | app.py:115-121 | fewer than three coordinates, including the `[None, None]` default, raise `IndexError` |
| Normalize.RecordTimeReadsBack | app.py:116-118 | the row's time string reads back as the UTC date-time of the feature's epoch milliseconds |
| Normalize.NormalizeResponse | app.py:110-124 | no `features` key gives no rows; on success there is one row per feature, in order, each that feature's row; on failure the error is that of the first feature that raises |
| Normalize.RecordsOrFirstFailure | app.py:110-124 | a batch of rows exists exactly when every feature gives a row (both directions); a failing feature rules one out |
| Normalize.ExampleInstant | app.py:116 | 1700000000000 ms is 2023-11-14 22:13:20 UTC |
| Normalize.ExampleTimeString | app.py:91 | that instant is written "2023-11-14 10:13:20 PM" |
| Normalize.ExampleFeature | app.py:112-124 | a sample feature becomes the expected row |
| Daily.ToDatetime | app.py:311 | `pd.to_datetime` succeeds exactly when the string reads as a date-time that pandas' nanosecond range holds; the result is that reading |
| Daily.PandasRangeIsPyDate | app.py:311 | every instant in pandas' range is a Python date-time |
| Daily.PandasYears | app.py:311 | every instant in pandas' range lies in a year up to 2262 |
| Daily.ToDatetimeOfFormat | app.py:311 | a 12-hour string reads back as its own instant when pandas can hold it, and otherwise raises `OutOfBoundsDatetime` |
| Daily.RecordDates | app.py:311-314 | on success there is one date per row, and each is a Python date |
| Daily.RecordDatesOk | app.py:311-314 | the date column can be built exactly when every row's time can be parsed; a failure is the error of the first row whose time cannot be parsed, every earlier row being readable |
| Daily.RecordDatesValues | app.py:311-314 | on success the date in each row is the date part of that row's parsed time |
| Daily.RecordDatesRange | app.py:311-314 | every date of the column is a Python date in a year up to 2262 |
| Daily.Tally | app.py:317 | `value_counts().sort_index()` as repeated sorted insertion; see `TallyCorrect`, `TallyLength` and `TallyOrderFree` |
| Daily.TallyCorrect | app.py:317 | `value_counts().sort_index()` gives strictly ascending dates; the dates it lists are exactly the input dates; each entry's count is the number of occurrences of its date, and is at least 1; the counts sum to the input length |
| Daily.TallyLength | app.py:317 | the tally has one entry per distinct date |
| Daily.TallyOrderFree | app.py:317 | the tally depends only on how often each date occurs: two columns with the same multiset of dates give the same tally, whatever the row order |
| Daily.SingleDateTally | app.py:320 | a one-entry tally means every row shares one date, which is counted as many times as there are rows |
| Daily.DailyCountsSingle | app.py:320-323 | when every row falls on one date d, the table is exactly [(d, n), (d + 1 day, 0)] |
| Daily.PaddedTable | app.py:320-323 | the padded table is still strictly ascending; each count matches its date, and the synthetic day counts 0; the counts still sum to n |
| Daily.DailyCounts | app.py:311-323 | the whole daily block; see `DailyCountsCorrect`, `DailyCountsSingle` and `DailyFromFeatures` |
| Daily.DailyCountsCorrect | app.py:311-323 | whenever the time column can be read, the table is built, with four properties: strictly ascending dates; each count is the number of rows on its date; the counts sum to the number of rows; with one distinct date it is [(d, n), (d + 1 day, 0)], otherwise it is the plain tally, one positive entry per distinct date |
| Daily.NormalizedDates | app.py:311-314 | the date column of rows built from well-formed features is the UTC date of each feature's epoch milliseconds |
| Daily.CountMatchesEvents | app.py:311-317 | the number of rows on a date is the number of features whose UTC time falls on that date |
| Daily.DailyFromFeatures | app.py:311-323 | from features to chart: the table is strictly ascending, each entry counts the events whose UTC time falls on its date, and the entries sum to the number of events |
| Daily.ExampleSingleDay | app.py:320-323 | one row dated 2024-01-01 gives [(2024-01-01, 1), (2024-01-02, 0)] |
| Daily.ExampleThreeDays | app.py:317 | any column holding two rows on a date a, five on a later b and one on a still later c, in any order, tallies to exactly [(a, 2), (b, 5), (c, 1)] |

## Left out

- HTTP: the GET to the USGS service, the JSON decoding of its reply, and any transport error. The reply enters the model as an already decoded `Json` value.
- Floating point. Coordinates, magnitudes and the bounding box are carried as opaque JSON values or exact decimals, and nothing computes with them.
  - `TimeSeconds`: a float `time` is divided exactly and floored. Python first rounds `ms / 1000.0` to a double and then to microseconds, so times within a microsecond of a whole second may round differently.
  - JSON `NaN` and `Infinity` are not represented.
- Microseconds. `utcfromtimestamp` keeps the fractional second, but `%S` and the daily count never show it, so the model keeps whole seconds.
- `FormatDate`: always pads `%Y` to four digits. With glibc, older Pythons leave years below 1000 unpadded. Such years cannot come from the USGS catalogue.
- `ParseTimestamp`: reads only the layout `convert_to_am_pm` writes. pandas' format inference for other layouts is not part of this model.
- `InPandasRange`: rests on the nanosecond bounds of pandas' `Timestamp`. Newer pandas versions can parse into coarser units, which widens that range.
- URL encoding of the query string: the request is modelled as the `params` map.
- `datetime.now()`: it is a parameter (`now`) of `TimeWindow`. The date pickers' values are parameters too.
- The Streamlit page: session state, widgets, the "Fetch Data" button, markdown, CSS, the base64 flag image, the folium map and its colour legend, the table display, the CSV download and the plotly chart.
- The guard in front of the daily block: the block is skipped when the held table is empty or missing. `DailyCounts` on no rows gives the empty table.
- Rewriting `data['Time']` in session state: the model reads the column and does not store the parsed values back.
- The commented-out variant of the daily block at the end of `app.py`.
