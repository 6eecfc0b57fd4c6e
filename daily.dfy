/** The "Daily Earthquake Occurrences" block: re-parse each row's `Time`,
    keep its calendar date, count rows per date in ascending date order
    (`value_counts().sort_index()`), and pad a single-date result with a
    zero count for the next day. */
module Daily {
  import opened Outcomes
  import opened Calendar
  import opened Timestamps
  import opened Normalize

  datatype DayCount = DayCount(date: Date, count: nat)

  /** pandas' Timestamp range at nanosecond resolution (±(2^63 - 1) ns
      around the epoch), in whole seconds. */
  const MinPandasSeconds := -9223372036
  const MaxPandasSeconds := 9223372036

  predicate InPandasRange(t: DateTime)
    requires ValidDate(t.date)
  {
    MinPandasSeconds <= EpochSeconds(t) <= MaxPandasSeconds
  }

  /** `pd.to_datetime` on one `Time` string of the 12-hour layout. */
  function ToDatetime(s: string): (r: Result<DateTime>)
    ensures r.Ok? ==> IsPyDateTime(r.value) && InPandasRange(r.value)
    ensures r.Ok? ==> ParseTimestamp(s) == Some(r.value)
    ensures r.Err? <==> ParseTimestamp(s).None? || !InPandasRange(ParseTimestamp(s).value)
  {
    match ParseTimestamp(s)
    case None => Err(Unparseable)
    case Some(t) =>
      if InPandasRange(t) then
        PandasRangeIsPyDate(t);
        Ok(t)
      else
        Err(OutOfBoundsDatetime)
  }

  /** Every instant pandas can hold is a Python date-time: its day lies
      well inside years 1..9999 (`PandasYears` bounds its year by 2262). */
  lemma PandasRangeIsPyDate(t: DateTime)
    requires ValidDate(t.date) && 0 <= t.hour < 24 && 0 <= t.minute < 60 && 0 <= t.second < 60
    requires InPandasRange(t)
    ensures IsPyDateTime(t)
  {
    var o := Ordinal(t.date) - EpochOrdinal;
    assert -106752 <= o <= 106751;
    PyDateRange(t.date);
  }

  /** Reading a formatted timestamp back gives the instant itself exactly
      when pandas can hold it, and an out-of-bounds error otherwise. */
  lemma ToDatetimeOfFormat(t: DateTime)
    requires IsPyDateTime(t)
    ensures InPandasRange(t) ==> ToDatetime(FormatTimestamp(t)) == Ok(t)
    ensures !InPandasRange(t) ==> ToDatetime(FormatTimestamp(t)) == Err(OutOfBoundsDatetime)
  {
    ParseFormatTimestamp(t);
  }

  /** `data['Time'] = pd.to_datetime(data['Time'])`, then `.dt.date`; the
      first row that cannot be read makes the whole column fail (see
      `RecordDatesOk`). */
  function RecordDates(records: seq<Record>): (r: Result<seq<Date>>)
    ensures r.Ok? ==> |r.value| == |records|
    ensures r.Ok? ==> forall i :: 0 <= i < |r.value| ==> IsPyDate(r.value[i])
  {
    if records == [] then Ok([])
    else
      var earlier :- RecordDates(records[..|records| - 1]);
      var t :- ToDatetime(records[|records| - 1].time);
      Ok(earlier + [t.date])
  }

  /** Row `k` is the first whose time cannot be read, and reading it
      raises `failure`. */
  predicate FirstUnreadable(records: seq<Record>, k: int, failure: Failure) {
    && 0 <= k < |records|
    && (forall i :: 0 <= i < k ==> ToDatetime(records[i].time).Ok?)
    && ToDatetime(records[k].time) == Err(failure)
  }

  /** The column can be read exactly when every row's time can; when it
      cannot, the error is that of the first row that cannot be read. */
  lemma RecordDatesOk(records: seq<Record>)
    ensures RecordDates(records).Ok? <==> forall i :: 0 <= i < |records| ==> ToDatetime(records[i].time).Ok?
    ensures RecordDates(records).Err? ==>
      exists k :: FirstUnreadable(records, k, RecordDates(records).error)
  {
    if RecordDates(records).Ok? {
      RecordDatesValues(records);
    } else {
      RecordDatesError(records);
      if forall i :: 0 <= i < |records| ==> ToDatetime(records[i].time).Ok? {
        AllReadable(records);
      }
    }
  }

  lemma {:induction false} AllReadable(records: seq<Record>)
    requires forall i :: 0 <= i < |records| ==> ToDatetime(records[i].time).Ok?
    ensures RecordDates(records).Ok?
  {
    if records != [] {
      var earlier := records[..|records| - 1];
      assert forall i :: 0 <= i < |earlier| ==> earlier[i] == records[i];
      AllReadable(earlier);
    }
  }

  lemma {:induction false} RecordDatesError(records: seq<Record>)
    requires RecordDates(records).Err?
    ensures exists k :: FirstUnreadable(records, k, RecordDates(records).error)
  {
    var n := |records| - 1;
    var earlier := records[..n];
    if RecordDates(earlier).Err? {
      RecordDatesError(earlier);
      var k :| FirstUnreadable(earlier, k, RecordDates(earlier).error);
      assert forall i :: 0 <= i <= k ==> earlier[i] == records[i];
      assert FirstUnreadable(records, k, RecordDates(records).error);
    } else {
      RecordDatesValues(earlier);
      assert forall i :: 0 <= i < n ==> earlier[i] == records[i];
      assert FirstUnreadable(records, n, RecordDates(records).error);
    }
  }

  /** Each date of a readable column is the date part of its row's time. */
  lemma {:induction false} RecordDatesValues(records: seq<Record>)
    requires RecordDates(records).Ok?
    ensures forall i :: 0 <= i < |records| ==>
      ToDatetime(records[i].time).Ok? && RecordDates(records).value[i] == ToDatetime(records[i].time).value.date
  {
    if records != [] {
      var n := |records| - 1;
      var earlier := records[..n];
      var dates := RecordDates(records).value;
      var before := RecordDates(earlier).value;
      var last := ToDatetime(records[n].time);
      assert last.Ok? && dates == before + [last.value.date];
      RecordDatesValues(earlier);
      forall i | 0 <= i < |records|
        ensures ToDatetime(records[i].time).Ok? && dates[i] == ToDatetime(records[i].time).value.date
      {
        if i < n {
          assert earlier[i] == records[i];
          assert ToDatetime(earlier[i].time).Ok? && before[i] == ToDatetime(earlier[i].time).value.date;
          assert dates[i] == before[i];
        } else {
          assert i == n && records[i] == records[n];
          assert dates[i] == last.value.date;
        }
      }
    }
  }

  // ---------------------------------------------------------------------
  // Counting by date

  /** How many of `dates` are `d`. */
  function Count(dates: seq<Date>, d: Date): nat {
    if dates == [] then 0
    else Count(dates[..|dates| - 1], d) + (if dates[|dates| - 1] == d then 1 else 0)
  }

  /** The distinct dates. */
  function Distinct(dates: seq<Date>): set<Date> {
    set d | d in dates
  }

  function DatesOf(counts: seq<DayCount>): seq<Date> {
    seq(|counts|, i requires 0 <= i < |counts| => counts[i].date)
  }

  /** The count recorded for `d`, 0 when `d` has no entry. */
  function Lookup(counts: seq<DayCount>, d: Date): nat {
    if counts == [] then 0
    else if counts[0].date == d then counts[0].count
    else Lookup(counts[1..], d)
  }

  function Total(counts: seq<DayCount>): nat {
    if counts == [] then 0 else counts[0].count + Total(counts[1..])
  }

  predicate StrictlyAscending(counts: seq<DayCount>) {
    forall i, j :: 0 <= i < j < |counts| ==> Before(counts[i].date, counts[j].date)
  }

  /** Adds one occurrence of `d` to an ascending tally. */
  function Bump(counts: seq<DayCount>, d: Date): (r: seq<DayCount>)
    ensures r != []
    ensures r[0].date == if counts != [] && Before(counts[0].date, d) then counts[0].date else d
  {
    if counts == [] then [DayCount(d, 1)]
    else if counts[0].date == d then [DayCount(d, counts[0].count + 1)] + counts[1..]
    else if Before(d, counts[0].date) then [DayCount(d, 1)] + counts
    else [counts[0]] + Bump(counts[1..], d)
  }

  /** `value_counts().sort_index()` on the date column. */
  function Tally(dates: seq<Date>): seq<DayCount> {
    if dates == [] then []
    else Bump(Tally(dates[..|dates| - 1]), dates[|dates| - 1])
  }

  lemma {:induction false} BumpDates(counts: seq<DayCount>, d: Date)
    ensures forall e :: e in DatesOf(Bump(counts, d)) <==> e in DatesOf(counts) || e == d
  {
    var r := Bump(counts, d);
    if counts == [] {
      assert DatesOf(r) == [d];
    } else if counts[0].date == d {
      assert DatesOf(r) == DatesOf(counts);
      assert DatesOf(counts)[0] == d;
    } else if Before(d, counts[0].date) {
      assert DatesOf(r) == [d] + DatesOf(counts);
    } else {
      BumpDates(counts[1..], d);
      assert DatesOf(counts) == [counts[0].date] + DatesOf(counts[1..]);
      assert DatesOf(r) == [counts[0].date] + DatesOf(Bump(counts[1..], d));
    }
  }

  lemma {:induction false} BumpAscending(counts: seq<DayCount>, d: Date)
    requires StrictlyAscending(counts)
    ensures StrictlyAscending(Bump(counts, d))
  {
    if counts != [] && !(counts[0].date == d) && !Before(d, counts[0].date) {
      var rest := Bump(counts[1..], d);
      BumpAscending(counts[1..], d);
      BumpDates(counts[1..], d);
      forall j | 0 <= j < |rest|
        ensures Before(counts[0].date, rest[j].date)
      {
        assert DatesOf(rest)[j] == rest[j].date;
        assert rest[j].date in DatesOf(rest);
        if rest[j].date != d {
          var k :| 0 <= k < |counts[1..]| && DatesOf(counts[1..])[k] == rest[j].date;
          assert counts[k + 1].date == rest[j].date;
        }
      }
    }
  }

  /** A date before the first entry of an ascending tally has no entry. */
  lemma LookupBelow(counts: seq<DayCount>, d: Date)
    requires StrictlyAscending(counts) && counts != [] && Before(d, counts[0].date)
    ensures Lookup(counts, d) == 0
  {
    LookupAbsent(counts, d);
  }

  lemma {:induction false} LookupAbsent(counts: seq<DayCount>, d: Date)
    requires forall i :: 0 <= i < |counts| ==> counts[i].date != d
    ensures Lookup(counts, d) == 0
  {
    if counts != [] {
      LookupAbsent(counts[1..], d);
    }
  }

  lemma {:induction false} BumpLookup(counts: seq<DayCount>, d: Date, e: Date)
    requires StrictlyAscending(counts)
    ensures Lookup(Bump(counts, d), e) == Lookup(counts, e) + (if e == d then 1 else 0)
  {
    if counts == [] {
    } else if counts[0].date == d {
      assert Bump(counts, d)[1..] == counts[1..];
    } else if Before(d, counts[0].date) {
      assert Bump(counts, d)[1..] == counts;
      if e == d {
        LookupBelow(counts, d);
      }
    } else {
      assert Bump(counts, d)[1..] == Bump(counts[1..], d);
      BumpLookup(counts[1..], d, e);
    }
  }

  lemma {:induction false} BumpTotal(counts: seq<DayCount>, d: Date)
    ensures Total(Bump(counts, d)) == Total(counts) + 1
  {
    if counts == [] {
    } else if counts[0].date == d {
      assert Bump(counts, d)[1..] == counts[1..];
    } else if Before(d, counts[0].date) {
      assert Bump(counts, d)[1..] == counts;
    } else {
      assert Bump(counts, d)[1..] == Bump(counts[1..], d);
      BumpTotal(counts[1..], d);
    }
  }

  /** In a strictly ascending tally each entry is what `Lookup` finds for
      its date. */
  lemma {:induction false} LookupAt(counts: seq<DayCount>, i: int)
    requires StrictlyAscending(counts) && 0 <= i < |counts|
    ensures Lookup(counts, counts[i].date) == counts[i].count
  {
    if i > 0 {
      assert Before(counts[0].date, counts[i].date);
      assert StrictlyAscending(counts[1..]);
      LookupAt(counts[1..], i - 1);
    }
  }

  /** What `value_counts().sort_index()` promises: one entry per distinct
      date, in strictly ascending date order, each holding the number of
      occurrences of its date (at least one), all counts adding up to the
      number of dates. */
  lemma {:induction false} TallyCorrect(dates: seq<Date>)
    ensures var counts := Tally(dates);
      && StrictlyAscending(counts)
      && (forall d :: d in DatesOf(counts) <==> d in dates)
      && (forall d :: Lookup(counts, d) == Count(dates, d))
      && (forall i :: 0 <= i < |counts| ==> counts[i].count == Count(dates, counts[i].date) >= 1)
      && Total(counts) == |dates|
  {
    var counts := Tally(dates);
    if dates == [] {
    } else {
      var earlier, last := dates[..|dates| - 1], dates[|dates| - 1];
      TallyCorrect(earlier);
      var before := Tally(earlier);
      BumpDates(before, last);
      BumpAscending(before, last);
      BumpTotal(before, last);
      forall d
        ensures Lookup(counts, d) == Count(dates, d)
      {
        BumpLookup(before, last, d);
      }
      forall d
        ensures d in DatesOf(counts) <==> d in dates
      {
        assert d in dates <==> d in earlier || d == last by {
          assert dates == earlier + [last];
        }
      }
      forall i | 0 <= i < |counts|
        ensures counts[i].count == Count(dates, counts[i].date) >= 1
      {
        LookupAt(counts, i);
        assert DatesOf(counts)[i] == counts[i].date;
        CountPositive(dates, counts[i].date);
      }
    }
  }

  lemma {:induction false} CountPositive(dates: seq<Date>, d: Date)
    ensures d in dates <==> Count(dates, d) >= 1
  {
    if dates != [] {
      var earlier := dates[..|dates| - 1];
      CountPositive(earlier, d);
      assert dates == earlier + [dates[|dates| - 1]];
    }
  }

  /** A strictly ascending tally has no repeated date, so it has one entry
      per distinct date. */
  lemma {:induction false} AscendingLength(counts: seq<DayCount>)
    requires StrictlyAscending(counts)
    ensures |Distinct(DatesOf(counts))| == |counts|
  {
    if counts != [] {
      var rest := counts[1..];
      assert StrictlyAscending(rest);
      AscendingLength(rest);
      assert DatesOf(counts) == [counts[0].date] + DatesOf(rest);
      assert Distinct(DatesOf(counts)) == {counts[0].date} + Distinct(DatesOf(rest));
      forall k | 0 <= k < |rest|
        ensures DatesOf(rest)[k] != counts[0].date
      {
        assert Before(counts[0].date, counts[k + 1].date);
      }
    }
  }

  /** The tally has exactly as many entries as there are distinct dates. */
  lemma TallyLength(dates: seq<Date>)
    ensures |Tally(dates)| == |Distinct(dates)|
  {
    TallyCorrect(dates);
    AscendingLength(Tally(dates));
    assert Distinct(DatesOf(Tally(dates))) == Distinct(dates);
  }

  /** `Count` is the multiplicity of a date in the column. */
  lemma {:induction false} CountMultiset(dates: seq<Date>, d: Date)
    ensures Count(dates, d) == multiset(dates)[d]
  {
    if dates != [] {
      var earlier := dates[..|dates| - 1];
      CountMultiset(earlier, d);
      assert dates == earlier + [dates[|dates| - 1]];
    }
  }

  /** A date below every later entry of an ascending tally has no entry
      after the first. */
  lemma TailLookup(counts: seq<DayCount>)
    requires StrictlyAscending(counts) && counts != []
    ensures Lookup(counts[1..], counts[0].date) == 0
  {
    forall i | 0 <= i < |counts[1..]|
      ensures counts[1..][i].date != counts[0].date
    {
      assert Before(counts[0].date, counts[i + 1].date);
    }
    LookupAbsent(counts[1..], counts[0].date);
  }

  /** A strictly ascending tally with positive counts is determined by
      what `Lookup` finds for each date. */
  lemma {:induction false} AscendingUnique(xs: seq<DayCount>, ys: seq<DayCount>)
    requires StrictlyAscending(xs) && StrictlyAscending(ys)
    requires forall i :: 0 <= i < |xs| ==> xs[i].count >= 1
    requires forall i :: 0 <= i < |ys| ==> ys[i].count >= 1
    requires forall d :: Lookup(xs, d) == Lookup(ys, d)
    ensures xs == ys
    decreases |xs| + |ys|
  {
    if xs == [] || ys == [] {
      if xs != [] {
        LookupAt(xs, 0);
      }
      if ys != [] {
        LookupAt(ys, 0);
      }
    } else {
      var x, y := xs[0].date, ys[0].date;
      LookupAt(xs, 0);
      LookupAt(ys, 0);
      if Before(x, y) {
        LookupBelow(ys, x);
      } else if Before(y, x) {
        LookupBelow(xs, y);
      } else {
        assert x == y;
        TailLookup(xs);
        TailLookup(ys);
        forall d
          ensures Lookup(xs[1..], d) == Lookup(ys[1..], d)
        {
          if d != x {
            assert Lookup(xs, d) == Lookup(xs[1..], d);
            assert Lookup(ys, d) == Lookup(ys[1..], d);
          }
        }
        assert StrictlyAscending(xs[1..]) && StrictlyAscending(ys[1..]);
        AscendingUnique(xs[1..], ys[1..]);
        assert xs == [xs[0]] + xs[1..];
        assert ys == [ys[0]] + ys[1..];
      }
    }
  }

  /** `value_counts().sort_index()` depends only on how often each date
      occurs, not on the order of the rows. */
  lemma TallyOrderFree(dates: seq<Date>, others: seq<Date>)
    requires multiset(dates) == multiset(others)
    ensures Tally(dates) == Tally(others)
  {
    TallyCorrect(dates);
    TallyCorrect(others);
    forall d
      ensures Lookup(Tally(dates), d) == Lookup(Tally(others), d)
    {
      CountMultiset(dates, d);
      CountMultiset(others, d);
    }
    AscendingUnique(Tally(dates), Tally(others));
  }

  // ---------------------------------------------------------------------
  // The block as a whole

  /** The daily-count table: the tally of the rows' dates, followed by a
      zero-count entry for the next day when all rows share one date. */
  function DailyCounts(records: seq<Record>): Result<seq<DayCount>> {
    var dates :- RecordDates(records);
    var counts := Tally(dates);
    if |counts| == 1 then
      TallyHead(dates);
      var next :- AddDays(counts[0].date, 1);
      Ok(counts + [DayCount(next, 0)])
    else
      Ok(counts)
  }

  lemma TallyHead(dates: seq<Date>)
    requires Tally(dates) != []
    ensures Tally(dates)[0].date in dates
  {
    TallyCorrect(dates);
    assert DatesOf(Tally(dates))[0] == Tally(dates)[0].date;
  }

  /** Every date of a readable column lies in years 1..2262. */
  lemma RecordDatesRange(records: seq<Record>)
    requires RecordDates(records).Ok?
    ensures forall i :: 0 <= i < |records| ==>
      IsPyDate(RecordDates(records).value[i]) && RecordDates(records).value[i].year <= 2262
  {
    RecordDatesValues(records);
    forall i | 0 <= i < |records|
      ensures IsPyDate(RecordDates(records).value[i]) && RecordDates(records).value[i].year <= 2262
    {
      PandasYears(ToDatetime(records[i].time).value);
    }
  }

  lemma PandasYears(t: DateTime)
    requires IsPyDateTime(t) && InPandasRange(t)
    ensures t.date.year <= 2262
  {
    if t.date.year >= 2263 {
      LateOrdinal(t.date);
    }
  }

  lemma LateOrdinal(d: Date)
    requires ValidDate(d) && d.year >= 2263
    ensures Ordinal(d) > 826178
  {
    assert DaysBeforeYear(2263) == 826178 by {
      assert 2262 / 4 == 565 && 2262 / 100 == 22 && 2262 / 400 == 5;
    }
    if d.year > 2263 {
      DaysBeforeYearGrows(2263, d.year);
    }
    DayOfYearBounds(d);
  }

  /** A tally with a single entry holds every date, all equal. */
  lemma {:induction false} SingleDateTally(dates: seq<Date>)
    requires |Tally(dates)| == 1
    ensures dates != [] && Tally(dates) == [DayCount(dates[0], |dates|)]
    ensures forall i :: 0 <= i < |dates| ==> dates[i] == dates[0]
  {
    var counts := Tally(dates);
    TallyCorrect(dates);
    assert DatesOf(counts) == [counts[0].date];
    assert Total(counts) == counts[0].count;
    forall i | 0 <= i < |dates|
      ensures dates[i] == counts[0].date
    {
      assert dates[i] in dates;
    }
  }

  /** All rows on one date d: the table is exactly [(d, n), (d + 1 day, 0)]. */
  lemma DailyCountsSingle(records: seq<Record>)
    requires RecordDates(records).Ok?
    requires |Tally(RecordDates(records).value)| == 1
    ensures var dates := RecordDates(records).value;
      DailyCounts(records) == Ok([DayCount(dates[0], |records|), DayCount(Successor(dates[0]), 0)])
  {
    var dates := RecordDates(records).value;
    var d := dates[0];
    var n := |records|;
    var next := DayCount(Successor(d), 0);
    assert Tally(dates) == [DayCount(d, n)] by {
      SingleDateTally(dates);
    }
    assert AddDays(d, 1) == Ok(Successor(d)) by {
      SingleDateTally(dates);
      RecordDatesRange(records);
      NextDay(d);
    }
    assert DailyCounts(records) == Ok([DayCount(d, n)] + [next]);
    PairAppend(DayCount(d, n), next);
  }

  lemma PairAppend(a: DayCount, b: DayCount)
    ensures [a] + [b] == [a, b]
  {
  }

  /** The synthetic entry's date follows d and counts no row. */
  lemma SingleDateCounts(dates: seq<Date>)
    requires dates != [] && ValidDate(dates[0])
    requires forall i :: 0 <= i < |dates| ==> dates[i] == dates[0]
    ensures Before(dates[0], Successor(dates[0]))
    ensures Count(dates, dates[0]) == |dates| && Count(dates, Successor(dates[0])) == 0
  {
    SuccessorIsNext(dates[0], dates[0]);
    CountAll(dates, dates[0]);
    CountPositive(dates, Successor(dates[0]));
  }

  lemma {:induction false} CountAll(dates: seq<Date>, d: Date)
    requires forall i :: 0 <= i < |dates| ==> dates[i] == d
    ensures Count(dates, d) == |dates|
  {
    if dates != [] {
      CountAll(dates[..|dates| - 1], d);
    }
  }

  lemma TotalPair(a: DayCount, b: DayCount)
    ensures Total([a, b]) == a.count + b.count
  {
    var tail := [b];
    assert [a, b][1..] == tail;
    assert tail[1..] == [];
    assert Total(tail) == b.count + Total(tail[1..]);
  }

  /** The table's own invariant over a date column: strictly ascending
      dates, each entry counting the rows on its date, the counts adding
      up to the number of rows. */
  predicate IsDailyTable(table: seq<DayCount>, dates: seq<Date>) {
    && StrictlyAscending(table)
    && (forall i :: 0 <= i < |table| ==> table[i].count == Count(dates, table[i].date))
    && Total(table) == |dates|
  }

  /** The padded single-date table keeps that invariant. */
  lemma PaddedTable(dates: seq<Date>)
    requires dates != [] && ValidDate(dates[0])
    requires forall i :: 0 <= i < |dates| ==> dates[i] == dates[0]
    ensures IsDailyTable([DayCount(dates[0], |dates|), DayCount(Successor(dates[0]), 0)], dates)
  {
    SingleDateCounts(dates);
    TotalPair(DayCount(dates[0], |dates|), DayCount(Successor(dates[0]), 0));
  }

  /** When the column can be read the table keeps its invariant, and:
      with one distinct date d it is exactly [(d, n), (d + 1 day, 0)];
      otherwise it is the plain tally, one entry per distinct date, each
      with a positive count, and no synthetic entry. */
  lemma DailyCountsCorrect(records: seq<Record>)
    requires RecordDates(records).Ok?
    ensures var dates, r := RecordDates(records).value, DailyCounts(records);
      && r.Ok?
      && IsDailyTable(r.value, dates)
      && (|Distinct(dates)| == 1 ==>
            r.value == [DayCount(dates[0], |records|), DayCount(Successor(dates[0]), 0)])
      && (|Distinct(dates)| != 1 ==>
            r.value == Tally(dates) && |r.value| == |Distinct(dates)|
            && forall i :: 0 <= i < |r.value| ==> r.value[i].count >= 1)
  {
    var dates := RecordDates(records).value;
    TallyLength(dates);
    if |Tally(dates)| == 1 {
      DailyCountsSingle(records);
      SingleDateTally(dates);
      assert ValidDate(dates[0]) by {
        RecordDatesRange(records);
      }
      PaddedTable(dates);
    } else {
      TallyCorrect(dates);
    }
  }

  // ---------------------------------------------------------------------
  // From the provider's features to the daily table

  /** The date column of rows built from well-formed features is the UTC
      calendar date of each feature's epoch milliseconds, provided pandas
      can hold each instant. */
  lemma NormalizedDates(features: seq<Json>, records: seq<Record>)
    requires RecordsOf(features, records)
    requires forall i :: 0 <= i < |features| ==> WellFormed(features[i])
    requires forall i :: 0 <= i < |features| ==>
      UtcFromMillis(MillisOf(features[i])).Ok? && InPandasRange(UtcFromMillis(MillisOf(features[i])).value)
    ensures RecordDates(records).Ok?
    ensures forall i :: 0 <= i < |features| ==>
      RecordDates(records).value[i] == UtcFromMillis(MillisOf(features[i])).value.date
  {
    forall i | 0 <= i < |features|
      ensures ToDatetime(records[i].time) == Ok(UtcFromMillis(MillisOf(features[i])).value)
    {
      FieldMapping(features[i]);
      ToDatetimeOfFormat(UtcFromMillis(MillisOf(features[i])).value);
    }
    RecordDatesOk(records);
    RecordDatesValues(records);
  }

  /** How many features carry epoch milliseconds that fall, in UTC, on `d`. */
  function EventsOn(features: seq<Json>, d: Date): nat {
    if features == [] then 0
    else
      var last := features[|features| - 1];
      EventsOn(features[..|features| - 1], d)
        + (if WellFormed(last) && UtcFromMillis(MillisOf(last)).Ok?
              && UtcFromMillis(MillisOf(last)).value.date == d then 1 else 0)
  }

  lemma {:induction false} CountMatchesEvents(features: seq<Json>, dates: seq<Date>, d: Date)
    requires |dates| == |features|
    requires forall i :: 0 <= i < |features| ==>
      WellFormed(features[i]) && UtcFromMillis(MillisOf(features[i])).Ok?
      && dates[i] == UtcFromMillis(MillisOf(features[i])).value.date
    ensures Count(dates, d) == EventsOn(features, d)
  {
    if features != [] {
      CountMatchesEvents(features[..|features| - 1], dates[..|dates| - 1], d);
    }
  }

  /** From a batch of well-formed features to the chart: the table can be
      built, its dates ascend strictly, each entry holds the number of
      events whose UTC time falls on its date, and the entries add up to
      the number of events. */
  lemma DailyFromFeatures(features: seq<Json>, records: seq<Record>)
    requires RecordsOf(features, records)
    requires forall i :: 0 <= i < |features| ==> WellFormed(features[i])
    requires forall i :: 0 <= i < |features| ==>
      UtcFromMillis(MillisOf(features[i])).Ok? && InPandasRange(UtcFromMillis(MillisOf(features[i])).value)
    ensures DailyCounts(records).Ok?
    ensures var table := DailyCounts(records).value;
      && StrictlyAscending(table)
      && (forall i :: 0 <= i < |table| ==> table[i].count == EventsOn(features, table[i].date))
      && Total(table) == |features|
  {
    NormalizedDates(features, records);
    DailyCountsCorrect(records);
    var dates := RecordDates(records).value;
    var table := DailyCounts(records).value;
    forall i | 0 <= i < |table|
      ensures table[i].count == EventsOn(features, table[i].date)
    {
      CountMatchesEvents(features, dates, table[i].date);
    }
  }

  /** One row dated 2024-01-01 gives [(2024-01-01, 1), (2024-01-02, 0)]. */
  lemma ExampleSingleDay(records: seq<Record>)
    requires RecordDates(records) == Ok([Date(2024, 1, 1)])
    ensures DailyCounts(records) == Ok([DayCount(Date(2024, 1, 1), 1), DayCount(Date(2024, 1, 2), 0)])
  {
    var dates := [Date(2024, 1, 1)];
    assert Distinct(dates) == {Date(2024, 1, 1)};
    DailyCountsCorrect(records);
    assert Successor(Date(2024, 1, 1)) == Date(2024, 1, 2);
  }

  /** Two rows on a date a, five on a later date b and one on a still
      later date c, in any order, give exactly those three entries in date
      order. */
  lemma ExampleThreeDays(dates: seq<Date>, a: Date, b: Date, c: Date)
    requires Before(a, b) && Before(b, c)
    requires multiset(dates) == multiset{a, a, b, b, b, b, b, c}
    ensures Tally(dates) == [DayCount(a, 2), DayCount(b, 5), DayCount(c, 1)]
  {
    var expected := [DayCount(a, 2), DayCount(b, 5), DayCount(c, 1)];
    TallyCorrect(dates);
    forall d
      ensures Lookup(Tally(dates), d) == Lookup(expected, d)
    {
      CountMultiset(dates, d);
      ThreeDayLookup(a, b, c, d);
    }
    AscendingUnique(Tally(dates), expected);
  }

  /** What the expected table records for each date is the multiplicity
      of that date in the example's column. */
  lemma ThreeDayLookup(a: Date, b: Date, c: Date, d: Date)
    requires Before(a, b) && Before(b, c)
    ensures Lookup([DayCount(a, 2), DayCount(b, 5), DayCount(c, 1)], d)
         == multiset{a, a, b, b, b, b, b, c}[d]
  {
    var expected := [DayCount(a, 2), DayCount(b, 5), DayCount(c, 1)];
    var rest, last := [DayCount(b, 5), DayCount(c, 1)], [DayCount(c, 1)];
    assert expected[1..] == rest && rest[1..] == last && last[1..] == [];
    assert a != b && b != c && a != c;
    var column := multiset{a, a, b, b, b, b, b, c};
    if d == a {
      assert column[d] == 2;
    } else if d == b {
      assert Lookup(expected, d) == Lookup(rest, d) == 5;
      assert column[d] == 5;
    } else if d == c {
      assert Lookup(expected, d) == Lookup(rest, d) == Lookup(last, d) == 1;
      assert column[d] == 1;
    } else {
      assert Lookup(expected, d) == Lookup(rest, d) == Lookup(last, d) == Lookup([], d) == 0;
      assert column == multiset{a, a} + multiset{b, b, b, b, b} + multiset{c};
      assert column[d] == 0;
    }
  }
}
