/** Windowed aggregation of analytics events with upsert (`aggregate_analytics_metrics`
    of migration 005).

    One call selects the events of a half-open time window, groups them by state and event
    type, and inserts or overwrites one row per group in `realtime_metrics`.  Times are whole
    seconds in UTC, and amounts are exact.
 */
module MetricsRollup {
  import opened Results
  import opened Tallies

  type Timestamp = int

  /** The `dimensions` column, `{"state": …, "event_type": …}`; a missing state is a group of its own. */
  datatype Dimensions = Dimensions(state: Option<string>, eventType: string)

  datatype AnalyticsEvent = AnalyticsEvent(createdAt: Timestamp, dimensions: Dimensions, value: Option<real>)

  datatype Period = Minute | Hour | Day | Week | Month | Unknown

  datatype Summary = Summary(count: nat, sum: real, min: real, max: real)

  datatype MetricRow = MetricRow(
    metricName: string,
    metricType: string,
    period: Period,
    periodStart: Timestamp,
    periodEnd: Timestamp,
    dimensions: Dimensions,
    value: real,
    summary: Summary)

  /** The unique key of the table. */
  datatype Key = Key(metricName: string, period: Period, periodStart: Timestamp, dimensions: Dimensions)

  function KeyOf(row: MetricRow): Key {
    Key(row.metricName, row.period, row.periodStart, row.dimensions)
  }

  // ---------- the SELECT ----------

  /** The `CASE` that computes the end of the window; `monthLater` is the start plus one month. */
  function PeriodEnd(period: Period, start: Timestamp, monthLater: Timestamp): Option<Timestamp> {
    match period
    case Minute => Some(start + 60)
    case Hour => Some(start + 3600)
    case Day => Some(start + 86400)
    case Week => Some(start + 604800)
    case Month => Some(monthLater)
    case Unknown => None
  }

  /** The WHERE clause. */
  predicate Selected(e: AnalyticsEvent, start: Timestamp, end: Timestamp) {
    start <= e.createdAt < end && e.value.Some?
  }

  function AddValue(s: Option<Summary>, v: real): Option<Summary> {
    match s
    case None => Some(Summary(1, v, v, v))
    case Some(t) =>
      Some(Summary(t.count + 1, t.sum + v, if v < t.min then v else t.min, if t.max < v then v else t.max))
  }

  /** COUNT, SUM, MIN and MAX over the selected events of one group; `None` for an empty group. */
  function Summarize(events: seq<AnalyticsEvent>, start: Timestamp, end: Timestamp, d: Dimensions): Option<Summary> {
    if events == [] then None
    else
      var e := events[|events| - 1];
      var s := Summarize(events[..|events| - 1], start, end, d);
      if Selected(e, start, end) && e.dimensions == d then AddValue(s, e.value.value) else s
  }

  predicate Contains(groups: seq<Dimensions>, d: Dimensions) {
    exists i | 0 <= i < |groups| :: groups[i] == d
  }

  /** GROUP BY: each group of the window once. */
  function Groups(events: seq<AnalyticsEvent>, start: Timestamp, end: Timestamp): seq<Dimensions> {
    if events == [] then []
    else
      var e := events[|events| - 1];
      var groups := Groups(events[..|events| - 1], start, end);
      if Selected(e, start, end) && !Contains(groups, e.dimensions) then groups + [e.dimensions] else groups
  }

  function Average(s: Summary): real
    requires s.count > 0
  {
    s.sum / s.count as real
  }

  function RowFor(name: string, period: Period, start: Timestamp, end: Timestamp, d: Dimensions, s: Summary): MetricRow
    requires s.count > 0
  {
    MetricRow(name, "summary", period, start, end, d, Average(s), s)
  }

  lemma {:induction false} SummaryCounts(events: seq<AnalyticsEvent>, start: Timestamp, end: Timestamp, d: Dimensions)
    ensures var s := Summarize(events, start, end, d); s.Some? ==> s.value.count > 0
    ensures Summarize(events, start, end, d).Some? <==> Contains(Groups(events, start, end), d)
  {
    if events != [] {
      var e, front := events[|events| - 1], events[..|events| - 1];
      SummaryCounts(front, start, end, d);
      var groups := Groups(front, start, end);
      if Selected(e, start, end) && !Contains(groups, e.dimensions) {
        ContainsAppend(groups, e.dimensions, d);
      }
    }
  }

  lemma {:induction false} ContainsAppend(groups: seq<Dimensions>, e: Dimensions, d: Dimensions)
    ensures Contains(groups + [e], d) <==> Contains(groups, d) || e == d
  {
    assert (groups + [e])[|groups|] == e;
    assert forall i | 0 <= i < |groups| :: (groups + [e])[i] == groups[i];
  }

  lemma {:induction false} GroupsDistinct(events: seq<AnalyticsEvent>, start: Timestamp, end: Timestamp)
    ensures forall i, j | 0 <= i < j < |Groups(events, start, end)| ::
      Groups(events, start, end)[i] != Groups(events, start, end)[j]
  {
    if events != [] {
      GroupsDistinct(events[..|events| - 1], start, end);
    }
  }

  /** The row is that of the given metric and window. */
  predicate Describes(row: MetricRow, name: string, metricType: string, period: Period, start: Timestamp,
                      end: Timestamp)
  {
    && row.metricName == name && row.metricType == metricType
    && row.period == period && row.periodStart == start && row.periodEnd == end
  }

  /** The rows of the SELECT, one per group. */
  function Select(events: seq<AnalyticsEvent>, name: string, period: Period, start: Timestamp,
                  end: Timestamp): (rows: seq<MetricRow>)
    ensures |rows| == |Groups(events, start, end)|
    ensures forall r | 0 <= r < |rows| :: Describes(rows[r], name, "summary", period, start, end)
  {
    var groups := Groups(events, start, end);
    seq(|groups|, i requires 0 <= i < |groups| =>
      SummaryCounts(events, start, end, groups[i]);
      assert Contains(groups, groups[i]);
      RowFor(name, period, start, end, groups[i], Summarize(events, start, end, groups[i]).value))
  }

  // ---------- the INSERT … ON CONFLICT DO UPDATE ----------

  predicate KeysUnique(table: seq<MetricRow>) {
    forall i, j | 0 <= i < j < |table| :: KeyOf(table[i]) != KeyOf(table[j])
  }

  /** The constraint `ck_realtime_metrics_count_positive`. */
  predicate CountsPositive(table: seq<MetricRow>) {
    forall i | 0 <= i < |table| :: table[i].summary.count > 0
  }

  predicate TableValid(table: seq<MetricRow>) {
    KeysUnique(table) && CountsPositive(table)
  }

  /** The position of a key, or the length of the table. */
  function Find(table: seq<MetricRow>, key: Key, from: nat := 0): (i: nat)
    requires from <= |table|
    ensures from <= i <= |table|
    ensures i < |table| ==> KeyOf(table[i]) == key
    ensures forall j | from <= j < i :: KeyOf(table[j]) != key
    decreases |table| - from
  {
    if from == |table| || KeyOf(table[from]) == key then from else Find(table, key, from + 1)
  }

  function Upsert(table: seq<MetricRow>, row: MetricRow): seq<MetricRow> {
    var i := Find(table, KeyOf(row));
    if i < |table| then table[i := table[i].(value := row.value, summary := row.summary)]
    else table + [row]
  }

  function UpsertAll(table: seq<MetricRow>, rows: seq<MetricRow>): seq<MetricRow> {
    if rows == [] then table else Upsert(UpsertAll(table, rows[..|rows| - 1]), rows[|rows| - 1])
  }

  /** The table after one call of `aggregate_analytics_metrics`. */
  function Aggregated(table: seq<MetricRow>, events: seq<AnalyticsEvent>, name: string, period: Period,
                      start: Timestamp, monthLater: Timestamp): seq<MetricRow>
  {
    match PeriodEnd(period, start, monthLater)
    case None => table
    case Some(end) => UpsertAll(table, Select(events, name, period, start, end))
  }

  class RealtimeMetrics {
    var table: seq<MetricRow>

    constructor ()
      ensures table == [] && TableValid(table)
    {
      table := [];
    }

    method AggregateAnalyticsMetrics(events: seq<AnalyticsEvent>, name: string, period: Period,
                                     start: Timestamp, monthLater: Timestamp)
      requires TableValid(table)
      modifies this
      ensures TableValid(table)
      ensures table == Aggregated(old(table), events, name, period, start, monthLater)
    {
      var end := PeriodEnd(period, start, monthLater);
      if end.Some? {
        var rows := Select(events, name, period, start, end.value);
        SelectCounts(events, name, period, start, end.value);
        for r := 0 to |rows|
          invariant table == UpsertAll(old(table), rows[..r]) && TableValid(table)
        {
          assert rows[..r + 1][..r] == rows[..r];
          var i := Find(table, KeyOf(rows[r]));
          if i < |table| {
            table := table[i := table[i].(value := rows[r].value, summary := rows[r].summary)];
          } else {
            table := table + [rows[r]];
          }
        }
        assert rows[..|rows|] == rows;
      }
    }
  }

  lemma {:induction false} UpsertAllKeepsKeys(table: seq<MetricRow>, rows: seq<MetricRow>)
    requires KeysUnique(table)
    ensures KeysUnique(UpsertAll(table, rows))
  {
    if rows != [] {
      UpsertAllKeepsKeys(table, rows[..|rows| - 1]);
    }
  }

  /** Every row that one call inserts or overwrites counts at least one event. */
  lemma {:induction false} SelectCounts(events: seq<AnalyticsEvent>, name: string, period: Period,
                                        start: Timestamp, end: Timestamp)
    ensures CountsPositive(Select(events, name, period, start, end))
  {
    var groups := Groups(events, start, end);
    forall i | 0 <= i < |groups|
      ensures Select(events, name, period, start, end)[i].summary.count > 0
    {
      SummaryCounts(events, start, end, groups[i]);
    }
  }

  lemma {:induction false} UpsertAllKeepsCounts(table: seq<MetricRow>, rows: seq<MetricRow>)
    requires CountsPositive(table) && CountsPositive(rows)
    ensures CountsPositive(UpsertAll(table, rows))
  {
    if rows != [] {
      UpsertAllKeepsCounts(table, rows[..|rows| - 1]);
    }
  }

  /** Both constraints hold after any call, whatever the events. */
  lemma {:induction false} AggregatedIsValid(table: seq<MetricRow>, events: seq<AnalyticsEvent>, name: string,
                                             period: Period, start: Timestamp, monthLater: Timestamp)
    requires TableValid(table)
    ensures TableValid(Aggregated(table, events, name, period, start, monthLater))
  {
    var end := PeriodEnd(period, start, monthLater);
    if end.Some? {
      SelectCounts(events, name, period, start, end.value);
      UpsertAllKeepsKeys(table, Select(events, name, period, start, end.value));
      UpsertAllKeepsCounts(table, Select(events, name, period, start, end.value));
    }
  }

  /** Two versions of a row differ at most in the figures. */
  predicate SameWindow(a: MetricRow, b: MetricRow) {
    Describes(a, b.metricName, b.metricType, b.period, b.periodStart, b.periodEnd) && a.dimensions == b.dimensions
  }

  lemma {:induction false} UpsertAllKeepsWindows(table: seq<MetricRow>, rows: seq<MetricRow>, name: string,
                                                 period: Period, start: Timestamp, end: Timestamp)
    requires forall r | 0 <= r < |rows| :: Describes(rows[r], name, "summary", period, start, end)
    ensures var after := UpsertAll(table, rows);
      && |table| <= |after|
      && (forall k | 0 <= k < |table| :: SameWindow(after[k], table[k]))
      && forall k | |table| <= k < |after| :: Describes(after[k], name, "summary", period, start, end)
  {
    if rows != [] {
      var front, last := rows[..|rows| - 1], rows[|rows| - 1];
      assert Describes(last, name, "summary", period, start, end);
      UpsertAllKeepsWindows(table, front, name, period, start, end);
      UpsertKeepsWindow(UpsertAll(table, front), last);
    }
  }

  lemma {:induction false} UpsertKeepsWindow(table: seq<MetricRow>, row: MetricRow)
    ensures var after := Upsert(table, row);
      && |table| <= |after| <= |table| + 1
      && (forall k | 0 <= k < |table| :: SameWindow(after[k], table[k]))
      && (|table| < |after| ==> after[|table|] == row)
  {
  }

  /** A call keeps every row in its place, and may change the figures but nothing else of it; the rows it
      adds are summaries of its own metric and window. */
  lemma {:induction false} RowsKeepWindows(table: seq<MetricRow>, events: seq<AnalyticsEvent>, name: string,
                                           period: Period, start: Timestamp, monthLater: Timestamp, k: nat)
    ensures var after := Aggregated(table, events, name, period, start, monthLater);
      && |table| <= |after|
      && (k < |table| ==> SameWindow(after[k], table[k]))
      && (|table| <= k < |after| ==>
            var end := PeriodEnd(period, start, monthLater);
            end.Some? && Describes(after[k], name, "summary", period, start, end.value))
  {
    var end := PeriodEnd(period, start, monthLater);
    if end.Some? {
      UpsertAllKeepsWindows(table, Select(events, name, period, start, end.value), name, period, start, end.value);
    }
  }

  // ---------- what the table says afterwards ----------

  /** The figures stored under a key. */
  function Stored(table: seq<MetricRow>, key: Key): Option<(real, Summary)> {
    var i := Find(table, key);
    if i < |table| then Some((table[i].value, table[i].summary)) else None
  }

  lemma {:induction false} StoredAfterUpsert(table: seq<MetricRow>, row: MetricRow, key: Key)
    requires KeysUnique(table)
    ensures Stored(Upsert(table, row), key)
         == if key == KeyOf(row) then Some((row.value, row.summary)) else Stored(table, key)
  {
    var after, i, j := Upsert(table, row), Find(table, KeyOf(row)), Find(table, key);
    if i < |table| {
      assert forall k | 0 <= k < |table| :: KeyOf(after[k]) == KeyOf(table[k]);
    } else {
      assert forall k | 0 <= k < |table| :: after[k] == table[k];
      assert KeyOf(after[|table|]) == KeyOf(row);
    }
  }

  predicate HasRow(rows: seq<MetricRow>, key: Key) {
    exists r | 0 <= r < |rows| :: KeyOf(rows[r]) == key
  }

  lemma {:induction false} StoredAfterAll(table: seq<MetricRow>, rows: seq<MetricRow>, key: Key)
    requires KeysUnique(table) && KeysUnique(rows)
    ensures forall r | 0 <= r < |rows| && KeyOf(rows[r]) == key ::
      Stored(UpsertAll(table, rows), key) == Some((rows[r].value, rows[r].summary))
    ensures !HasRow(rows, key) ==> Stored(UpsertAll(table, rows), key) == Stored(table, key)
  {
    if rows != [] {
      var n := |rows| - 1;
      var front := rows[..n];
      StoredAfterAll(table, front, key);
      UpsertAllKeepsKeys(table, front);
      StoredAfterUpsert(UpsertAll(table, front), rows[n], key);
      assert forall r | 0 <= r < n :: front[r] == rows[r];
      assert KeyOf(rows[n]) == key ==> HasRow(rows, key);
      if HasRow(front, key) {
        var r :| 0 <= r < |front| && KeyOf(front[r]) == key;
        assert KeyOf(rows[r]) == key;
      }
    }
  }

  lemma {:induction false} SelectKeys(events: seq<AnalyticsEvent>, name: string, period: Period,
                                      start: Timestamp, end: Timestamp)
    ensures KeysUnique(Select(events, name, period, start, end))
  {
    GroupsDistinct(events, start, end);
  }

  /** One call stores, for each group of its window, exactly the group's figures, and touches
      no other key. */
  lemma {:induction false} StoredAfterAggregate(table: seq<MetricRow>, events: seq<AnalyticsEvent>, name: string,
      period: Period, start: Timestamp, monthLater: Timestamp, key: Key)
    requires KeysUnique(table)
    ensures var after := Aggregated(table, events, name, period, start, monthLater);
      var end := PeriodEnd(period, start, monthLater);
      if end.Some? && (key.metricName, key.period, key.periodStart) == (name, period, start)
         && Summarize(events, start, end.value, key.dimensions).Some?
      then var s := Summarize(events, start, end.value, key.dimensions).value;
           s.count > 0 && Stored(after, key) == Some((Average(s), s))
      else Stored(after, key) == Stored(table, key)
  {
    var end := PeriodEnd(period, start, monthLater);
    if end.Some? {
      var rows, groups := Select(events, name, period, start, end.value), Groups(events, start, end.value);
      SelectKeys(events, name, period, start, end.value);
      StoredAfterAll(table, rows, key);
      SummaryCounts(events, start, end.value, key.dimensions);
      if (key.metricName, key.period, key.periodStart) == (name, period, start) {
        if i :| 0 <= i < |groups| && groups[i] == key.dimensions {
          assert KeyOf(rows[i]) == key;
        }
      }
    }
  }

  // ---------- idempotence ----------

  lemma {:induction false} StoredRowIsKept(table: seq<MetricRow>, rows: seq<MetricRow>)
    requires forall r | 0 <= r < |rows| :: Stored(table, KeyOf(rows[r])) == Some((rows[r].value, rows[r].summary))
    ensures UpsertAll(table, rows) == table
  {
    if rows != [] {
      var n := |rows| - 1;
      StoredRowIsKept(table, rows[..n]);
      var i := Find(table, KeyOf(rows[n]));
      assert table[i].(value := rows[n].value, summary := rows[n].summary) == table[i];
    }
  }

  /** Running a window again leaves every row of the table as it is. */
  lemma {:induction false} RerunIsIdempotent(table: seq<MetricRow>, events: seq<AnalyticsEvent>, name: string,
      period: Period, start: Timestamp, monthLater: Timestamp)
    requires KeysUnique(table)
    ensures var once := Aggregated(table, events, name, period, start, monthLater);
      KeysUnique(once) && Aggregated(once, events, name, period, start, monthLater) == once
  {
    var end := PeriodEnd(period, start, monthLater);
    if end.Some? {
      var rows := Select(events, name, period, start, end.value);
      SelectKeys(events, name, period, start, end.value);
      UpsertAllKeepsKeys(table, rows);
      forall r | 0 <= r < |rows|
        ensures Stored(UpsertAll(table, rows), KeyOf(rows[r])) == Some((rows[r].value, rows[r].summary))
      {
        StoredAfterAll(table, rows, KeyOf(rows[r]));
      }
      StoredRowIsKept(UpsertAll(table, rows), rows);
    }
  }

  // ---------- the average ----------

  /** `a` added up `n` times. */
  function Times(a: real, n: nat): real {
    if n == 0 then 0.0 else Times(a, n - 1) + a
  }

  lemma {:induction false} TimesIsProduct(a: real, n: nat)
    ensures Times(a, n) == a * n as real
  {
    if n > 0 {
      TimesIsProduct(a, n - 1);
    }
  }

  lemma {:induction false} TimesMonotone(a: real, b: real, n: nat)
    requires a <= b
    ensures Times(a, n) <= Times(b, n)
    ensures a < b && n > 0 ==> Times(a, n) < Times(b, n)
  {
    if n > 0 {
      TimesMonotone(a, b, n - 1);
    }
  }

  /** The figures of a non-empty group are consistent: the sum lies between count times the extremes. */
  predicate Bounded(s: Summary) {
    s.count > 0 && Times(s.min, s.count) <= s.sum <= Times(s.max, s.count)
  }

  lemma {:induction false} AddValueBounded(s: Summary, v: real)
    requires Bounded(s)
    ensures Bounded(AddValue(Some(s), v).value)
  {
    var t := AddValue(Some(s), v).value;
    TimesMonotone(t.min, s.min, s.count);
    TimesMonotone(s.max, t.max, s.count);
  }

  lemma {:induction false} SummaryBounded(events: seq<AnalyticsEvent>, start: Timestamp, end: Timestamp, d: Dimensions)
    ensures var s := Summarize(events, start, end, d); s.Some? ==> Bounded(s.value)
  {
    if events != [] {
      var e, front := events[|events| - 1], events[..|events| - 1];
      SummaryBounded(front, start, end, d);
      var s := Summarize(front, start, end, d);
      if Selected(e, start, end) && e.dimensions == d && s.Some? {
        AddValueBounded(s.value, e.value.value);
      }
    }
  }

  lemma {:induction false} QuotientBounds(low: real, sum: real, high: real, n: nat)
    requires n > 0 && Times(low, n) <= sum <= Times(high, n)
    ensures low <= sum / n as real <= high
  {
    var q := sum / n as real;
    TimesIsProduct(q, n);
    if q < low {
      TimesMonotone(q, low, n);
    }
    if high < q {
      TimesMonotone(high, q, n);
    }
  }

  /** The stored average, taken once for each event, makes up the stored sum. */
  lemma {:induction false} AverageTimesCount(s: Summary)
    requires s.count > 0
    ensures Times(Average(s), s.count) == s.sum
  {
    TimesIsProduct(Average(s), s.count);
  }

  /** The stored average lies between the stored minimum and the stored maximum. */
  lemma {:induction false} AverageBetweenExtremes(events: seq<AnalyticsEvent>, start: Timestamp, end: Timestamp,
                                                  d: Dimensions)
    requires Summarize(events, start, end, d).Some?
    ensures var s := Summarize(events, start, end, d).value;
      s.count > 0 && s.min <= Average(s) <= s.max
  {
    SummaryBounded(events, start, end, d);
    var s := Summarize(events, start, end, d).value;
    QuotientBounds(s.min, s.sum, s.max, s.count);
  }

  /** The value of some selected event of the group. */
  predicate HasValue(events: seq<AnalyticsEvent>, start: Timestamp, end: Timestamp, d: Dimensions, v: real) {
    exists i | 0 <= i < |events| ::
      Selected(events[i], start, end) && events[i].dimensions == d && events[i].value == Some(v)
  }

  /** The minimum and the maximum are values of the group, and no value of the group lies outside them. */
  lemma {:induction false} ExtremesAreAttained(events: seq<AnalyticsEvent>, start: Timestamp, end: Timestamp,
                                               d: Dimensions, v: real)
    ensures var s := Summarize(events, start, end, d);
      if s.None? then !HasValue(events, start, end, d, v)
      else HasValue(events, start, end, d, s.value.min) && HasValue(events, start, end, d, s.value.max)
           && (HasValue(events, start, end, d, v) ==> s.value.min <= v <= s.value.max)
  {
    if events != [] {
      ExtremesAreAttained(events[..|events| - 1], start, end, d, v);
    }
  }

  // ---------- what the figures count and add up ----------

  /** The values of a group, in event order. */
  function Values(events: seq<AnalyticsEvent>, start: Timestamp, end: Timestamp, d: Dimensions): seq<real> {
    if events == [] then []
    else
      var e := events[|events| - 1];
      Values(events[..|events| - 1], start, end, d)
      + if Selected(e, start, end) && e.dimensions == d then [e.value.value] else []
  }

  /** The group has an event with value `v`. */
  predicate InGroupWith(e: AnalyticsEvent, start: Timestamp, end: Timestamp, d: Dimensions, v: real) {
    start <= e.createdAt < end && e.dimensions == d && e.value == Some(v)
  }

  predicate InGroup(e: AnalyticsEvent, start: Timestamp, end: Timestamp, d: Dimensions) {
    start <= e.createdAt < end && e.dimensions == d && e.value.Some?
  }

  lemma {:induction false} ValuesArePositions(events: seq<AnalyticsEvent>, start: Timestamp, end: Timestamp,
                                              d: Dimensions, v: real)
    ensures |Values(events, start, end, d)| == |Where(events, e => InGroup(e, start, end, d))|
    ensures multiset(Values(events, start, end, d))[v] == |Where(events, e => InGroupWith(e, start, end, d, v))|
  {
    var all, those := e => InGroup(e, start, end, d), e => InGroupWith(e, start, end, d, v);
    if events == [] {
      assert Where(events, all) == {} && Where(events, those) == {};
    } else {
      var front, e := events[..|events| - 1], events[|events| - 1];
      assert events == front + [e];
      ValuesArePositions(front, start, end, d, v);
      WhereAppend(front, e, all);
      WhereAppend(front, e, those);
    }
  }

  lemma {:induction false} CountOfValues(events: seq<AnalyticsEvent>, start: Timestamp, end: Timestamp, d: Dimensions)
    ensures |Values(events, start, end, d)|
         == |set i | 0 <= i < |events| && start <= events[i].createdAt < end && events[i].dimensions == d
                     && events[i].value.Some?|
  {
    ValuesArePositions(events, start, end, d, 0.0);
    assert Where(events, e => InGroup(e, start, end, d))
        == set i | 0 <= i < |events| && start <= events[i].createdAt < end && events[i].dimensions == d
                   && events[i].value.Some?;
  }

  lemma {:induction false} TimesOfValue(events: seq<AnalyticsEvent>, start: Timestamp, end: Timestamp, d: Dimensions,
                                        v: real)
    ensures multiset(Values(events, start, end, d))[v]
         == |set i | 0 <= i < |events| && start <= events[i].createdAt < end && events[i].dimensions == d
                     && events[i].value == Some(v)|
  {
    ValuesArePositions(events, start, end, d, v);
    assert Where(events, e => InGroupWith(e, start, end, d, v))
        == set i | 0 <= i < |events| && start <= events[i].createdAt < end && events[i].dimensions == d
                   && events[i].value == Some(v);
  }

  lemma {:induction false} SummaryOfValues(events: seq<AnalyticsEvent>, start: Timestamp, end: Timestamp, d: Dimensions)
    ensures CountOf(Summarize(events, start, end, d)) == |Values(events, start, end, d)|
    ensures SumOf(Summarize(events, start, end, d)) == Sum(Values(events, start, end, d))
  {
    if events != [] {
      var front, e := events[..|events| - 1], events[|events| - 1];
      var values := Values(front, start, end, d);
      SummaryOfValues(front, start, end, d);
      if Selected(e, start, end) && e.dimensions == d {
        assert (values + [e.value.value])[..|values|] == values;
      } else {
        assert values + [] == values;
      }
    }
  }

  function CountOf(s: Option<Summary>): nat {
    if s.Some? then s.value.count else 0
  }

  function SumOf(s: Option<Summary>): real {
    if s.Some? then s.value.sum else 0.0
  }

  /** A group's count is the number of events of the half-open window with the group's dimensions and a
      value; its sum is the sum of a list that holds each value as often as such an event has it. */
  lemma {:induction false} SummaryIsExact(events: seq<AnalyticsEvent>, start: Timestamp, end: Timestamp, d: Dimensions,
                                          v: real)
      returns (values: seq<real>)
    ensures CountOf(Summarize(events, start, end, d))
         == |set i | 0 <= i < |events| && start <= events[i].createdAt < end && events[i].dimensions == d
                     && events[i].value.Some?|
    ensures SumOf(Summarize(events, start, end, d)) == Sum(values)
    ensures values == Values(events, start, end, d)
    ensures multiset(values)[v]
         == |set i | 0 <= i < |events| && start <= events[i].createdAt < end && events[i].dimensions == d
                     && events[i].value == Some(v)|
  {
    values := Values(events, start, end, d);
    SummaryOfValues(events, start, end, d);
    CountOfValues(events, start, end, d);
    TimesOfValue(events, start, end, d, v);
  }

  // ---------- roll-up of fine windows to coarse ones ----------

  function Least(a: real, b: real): real { if b < a then b else a }

  function Greatest(a: real, b: real): real { if a < b then b else a }

  /** Counts and sums add up, the least minimum and the greatest maximum win. */
  function Combine(a: Option<Summary>, b: Option<Summary>): Option<Summary> {
    match (a, b)
    case (None, _) => b
    case (_, None) => a
    case (Some(x), Some(y)) =>
      Some(Summary(x.count + y.count, x.sum + y.sum, Least(x.min, y.min), Greatest(x.max, y.max)))
  }

  lemma {:induction false} CombineAddValue(a: Option<Summary>, b: Option<Summary>, v: real)
    ensures Combine(AddValue(a, v), b) == AddValue(Combine(a, b), v) == Combine(a, AddValue(b, v))
  {
  }

  lemma {:induction false} RollUpTwo(events: seq<AnalyticsEvent>, from: Timestamp, mid: Timestamp, to: Timestamp,
                                     d: Dimensions)
    requires from <= mid <= to
    ensures Summarize(events, from, to, d) == Combine(Summarize(events, from, mid, d), Summarize(events, mid, to, d))
  {
    if events != [] {
      var e, front := events[|events| - 1], events[..|events| - 1];
      RollUpTwo(front, from, mid, to, d);
      if e.value.Some? {
        CombineAddValue(Summarize(front, from, mid, d), Summarize(front, mid, to, d), e.value.value);
      }
    }
  }

  /** The combination of `n` consecutive windows of `width` seconds from `start` on. */
  function CombineWindows(events: seq<AnalyticsEvent>, start: Timestamp, width: nat, n: nat,
                          d: Dimensions): Option<Summary>
  {
    if n == 0 then None
    else Combine(CombineWindows(events, start, width, n - 1, d),
                 Summarize(events, start + (n - 1) * width, start + n * width, d))
  }

  lemma {:induction false} EmptyWindow(events: seq<AnalyticsEvent>, at: Timestamp, d: Dimensions)
    ensures Summarize(events, at, at, d) == None
  {
    if events != [] {
      EmptyWindow(events[..|events| - 1], at, d);
    }
  }

  /** Roll-up: consecutive half-open windows combine to the window they cover, whatever the events. */
  lemma {:induction false} RollUp(events: seq<AnalyticsEvent>, start: Timestamp, width: nat, n: nat, d: Dimensions)
    ensures CombineWindows(events, start, width, n, d) == Summarize(events, start, start + n * width, d)
  {
    if n == 0 {
      EmptyWindow(events, start, d);
    } else {
      RollUp(events, start, width, n - 1, d);
      assert 0 <= (n - 1) * width && (n - 1) * width + width == n * width;
      RollUpTwo(events, start, start + (n - 1) * width, start + n * width, d);
    }
  }

  /** The windows nest: 60 minutes make up an hour, 24 hours a day, and 7 days a week. */
  lemma {:induction false} PeriodsNest(events: seq<AnalyticsEvent>, start: Timestamp, d: Dimensions)
    ensures PeriodEnd(Minute, start, 0) == Some(start + 60)
    ensures exists end :: PeriodEnd(Hour, start, 0) == Some(end)
                          && CombineWindows(events, start, 60, 60, d) == Summarize(events, start, end, d)
    ensures exists end :: PeriodEnd(Day, start, 0) == Some(end)
                          && CombineWindows(events, start, 60 * 60, 24, d) == Summarize(events, start, end, d)
    ensures exists end :: PeriodEnd(Week, start, 0) == Some(end)
                          && CombineWindows(events, start, 24 * 60 * 60, 7, d) == Summarize(events, start, end, d)
  {
    RollUp(events, start, 60, 60, d);
    RollUp(events, start, 60 * 60, 24, d);
    RollUp(events, start, 24 * 60 * 60, 7, d);
  }

  // ---------- roll-up of the stored hour rows to the stored day row ----------

  /** What the table holds for a group of a window, as figures. */
  function StoredSummary(table: seq<MetricRow>, key: Key): Option<Summary> {
    var row := Stored(table, key);
    if row.Some? then Some(row.value.1) else None
  }

  function HourKey(name: string, start: Timestamp, h: nat, d: Dimensions): Key {
    Key(name, Hour, start + h * 3600, d)
  }

  function HourSummary(events: seq<AnalyticsEvent>, start: Timestamp, h: nat, d: Dimensions): Option<Summary> {
    Summarize(events, start + h * 3600, start + h * 3600 + 3600, d)
  }

  /** The combination of the hour rows stored for the `n` hours from `start` on. */
  function CombineStored(table: seq<MetricRow>, name: string, start: Timestamp, n: nat, d: Dimensions): Option<Summary>
  {
    if n == 0 then None
    else Combine(CombineStored(table, name, start, n - 1, d), StoredSummary(table, HourKey(name, start, n - 1, d)))
  }

  /** The day's row is the combination of the rows of its 24 hours. */
  predicate RollsUp(table: seq<MetricRow>, name: string, start: Timestamp, d: Dimensions) {
    StoredSummary(table, Key(name, Day, start, d)) == CombineStored(table, name, start, 24, d)
  }

  /** The table has a row for an hour whose group is empty by now. */
  predicate StaleHour(table: seq<MetricRow>, events: seq<AnalyticsEvent>, name: string, start: Timestamp,
                      d: Dimensions, h: nat)
  {
    StoredSummary(table, HourKey(name, start, h, d)).Some? && HourSummary(events, start, h, d).None?
  }

  /** Hour `k` after `start` is aggregated: the table goes from state `k` to state `k + 1`. */
  ghost predicate HourAt(tables: seq<seq<MetricRow>>, events: seq<AnalyticsEvent>, name: string, start: Timestamp,
                         k: nat)
    requires k + 1 < |tables|
  {
    tables[k + 1] == Aggregated(tables[k], events, name, Hour, start + k * 3600, 0)
  }

  /** `tables` are the states that the table passes through while `n` consecutive hours are aggregated. */
  ghost predicate AreHours(tables: seq<seq<MetricRow>>, events: seq<AnalyticsEvent>, name: string, start: Timestamp,
                           n: nat)
  {
    && |tables| == n + 1
    && forall k {:trigger HourAt(tables, events, name, start, k)} | 0 <= k < n :: HourAt(tables, events, name, start, k)
  }

  /** `after` is the table once the 24 hours of a day, and then the day, have been aggregated. */
  ghost predicate IsDay(tables: seq<seq<MetricRow>>, events: seq<AnalyticsEvent>, name: string, start: Timestamp,
                        after: seq<MetricRow>)
  {
    AreHours(tables, events, name, start, 24) && after == Aggregated(tables[24], events, name, Day, start, 0)
  }

  lemma {:induction false} OneWindowStored(table: seq<MetricRow>, events: seq<AnalyticsEvent>, name: string,
                                           period: Period, at: Timestamp, width: nat, key: Key, after: seq<MetricRow>)
    requires KeysUnique(table) && PeriodEnd(period, at, 0) == Some(at + width)
    requires after == Aggregated(table, events, name, period, at, 0)
    ensures KeysUnique(after)
    ensures StoredSummary(after, key)
      == if (key.metricName, key.period, key.periodStart) == (name, period, at)
            && Summarize(events, at, at + width, key.dimensions).Some?
         then Summarize(events, at, at + width, key.dimensions) else StoredSummary(table, key)
  {
    RerunIsIdempotent(table, events, name, period, at, 0);
    StoredAfterAggregate(table, events, name, period, at, 0, key);
  }

  lemma {:induction false} HoursKeepKeys(tables: seq<seq<MetricRow>>, events: seq<AnalyticsEvent>, name: string,
                                         start: Timestamp, n: nat, k: nat)
    requires AreHours(tables, events, name, start, n) && KeysUnique(tables[0]) && k <= n
    ensures KeysUnique(tables[k])
  {
    if k > 0 {
      HoursKeepKeys(tables, events, name, start, n, k - 1);
      assert HourAt(tables, events, name, start, k - 1);
      RerunIsIdempotent(tables[k - 1], events, name, Hour, start + (k - 1) * 3600, 0);
    }
  }

  /** What is stored under an hour's key: the hour's figures if the hour has been aggregated and has any,
      and otherwise what was stored before. */
  predicate HourHolds(after: seq<MetricRow>, table: seq<MetricRow>, events: seq<AnalyticsEvent>, name: string,
                      start: Timestamp, d: Dimensions, h: nat, done: bool)
  {
    StoredSummary(after, HourKey(name, start, h, d))
    == if done && HourSummary(events, start, h, d).Some? then HourSummary(events, start, h, d)
       else StoredSummary(table, HourKey(name, start, h, d))
  }

  lemma {:induction false} OneMoreHour(before: seq<MetricRow>, table: seq<MetricRow>, events: seq<AnalyticsEvent>,
                                       name: string, start: Timestamp, d: Dimensions, h: nat, n: nat,
                                       after: seq<MetricRow>)
    requires KeysUnique(before) && HourHolds(before, table, events, name, start, d, h, h < n)
    requires after == Aggregated(before, events, name, Hour, start + n * 3600, 0)
    ensures HourHolds(after, table, events, name, start, d, h, h < n + 1)
  {
    OneWindowStored(before, events, name, Hour, start + n * 3600, 3600, HourKey(name, start, h, d), after);
  }

  lemma {:induction false} HoursAreStored(tables: seq<seq<MetricRow>>, events: seq<AnalyticsEvent>, name: string,
                                          start: Timestamp, n: nat, d: Dimensions, h: nat, k: nat)
    requires AreHours(tables, events, name, start, n) && KeysUnique(tables[0]) && k <= n
    ensures HourHolds(tables[k], tables[0], events, name, start, d, h, h < k)
  {
    if k > 0 {
      HoursAreStored(tables, events, name, start, n, d, h, k - 1);
      HoursKeepKeys(tables, events, name, start, n, k - 1);
      assert HourAt(tables, events, name, start, k - 1);
      OneMoreHour(tables[k - 1], tables[0], events, name, start, d, h, k - 1, tables[k]);
    }
  }

  lemma {:induction false} OtherKeyIsKept(table: seq<MetricRow>, events: seq<AnalyticsEvent>, name: string,
                                          at: Timestamp, key: Key, after: seq<MetricRow>)
    requires KeysUnique(table) && key.period != Hour && after == Aggregated(table, events, name, Hour, at, 0)
    ensures StoredSummary(after, key) == StoredSummary(table, key)
  {
    OneWindowStored(table, events, name, Hour, at, 3600, key, after);
  }

  lemma {:induction false} HoursKeepOtherKeys(tables: seq<seq<MetricRow>>, events: seq<AnalyticsEvent>, name: string,
                                              start: Timestamp, n: nat, key: Key, k: nat)
    requires AreHours(tables, events, name, start, n) && KeysUnique(tables[0]) && k <= n && key.period != Hour
    ensures StoredSummary(tables[k], key) == StoredSummary(tables[0], key)
  {
    if k > 0 {
      HoursKeepOtherKeys(tables, events, name, start, n, key, k - 1);
      HoursKeepKeys(tables, events, name, start, n, k - 1);
      assert HourAt(tables, events, name, start, k - 1);
      OtherKeyIsKept(tables[k - 1], events, name, start + (k - 1) * 3600, key, tables[k]);
    }
  }

  /** What a day's aggregation leaves in the table for the hours, and for the day, of one group. */
  lemma {:induction false} HourAfterDay(tables: seq<seq<MetricRow>>, events: seq<AnalyticsEvent>, name: string,
                                        start: Timestamp, d: Dimensions, h: nat, after: seq<MetricRow>)
    requires IsDay(tables, events, name, start, after) && KeysUnique(tables[0]) && h < 24
    ensures HourHolds(after, tables[0], events, name, start, d, h, true)
  {
    HoursKeepKeys(tables, events, name, start, 24, 24);
    HoursAreStored(tables, events, name, start, 24, d, h, 24);
    OneWindowStored(tables[24], events, name, Day, start, 86400, HourKey(name, start, h, d), after);
  }

  lemma {:induction false} DayAfterDay(tables: seq<seq<MetricRow>>, events: seq<AnalyticsEvent>, name: string,
                                       start: Timestamp, d: Dimensions, after: seq<MetricRow>)
    requires IsDay(tables, events, name, start, after) && KeysUnique(tables[0])
    ensures StoredSummary(after, Key(name, Day, start, d))
         == var day := Summarize(events, start, start + 86400, d);
            if day.Some? then day else StoredSummary(tables[0], Key(name, Day, start, d))
  {
    HoursKeepKeys(tables, events, name, start, 24, 24);
    HoursKeepOtherKeys(tables, events, name, start, 24, Key(name, Day, start, d), 24);
    OneWindowStored(tables[24], events, name, Day, start, 86400, Key(name, Day, start, d), after);
  }

  /** One more stored hour adds at least as much to the count as the hour's events, and more if the
      hour's row is stale. */
  lemma {:induction false} HourCount(after: seq<MetricRow>, table: seq<MetricRow>, events: seq<AnalyticsEvent>,
                                     name: string, start: Timestamp, d: Dimensions, h: nat)
    requires CountsPositive(table) && HourHolds(after, table, events, name, start, d, h, true)
    ensures AgreeUnless(StaleHour(table, events, name, start, d, h), StoredSummary(after, HourKey(name, start, h, d)),
                        HourSummary(events, start, h, d))
  {
  }

  predicate StaleBefore(table: seq<MetricRow>, events: seq<AnalyticsEvent>, name: string, start: Timestamp,
                        d: Dimensions, n: nat)
  {
    exists h | 0 <= h < n :: StaleHour(table, events, name, start, d, h)
  }

  /** The first `n` stored hours combine to the events of those hours, or, if one of them is stale, to a
      greater count. */
  lemma {:induction false} StoredHoursCombine(after: seq<MetricRow>, table: seq<MetricRow>, events: seq<AnalyticsEvent>,
                                              name: string, start: Timestamp, d: Dimensions, n: nat)
    requires CountsPositive(table)
    requires forall h: nat | h < n :: HourHolds(after, table, events, name, start, d, h, true)
    ensures AgreeUnless(StaleBefore(table, events, name, start, d, n), CombineStored(after, name, start, n, d),
                        CombineWindows(events, start, 3600, n, d))
  {
    if n > 0 {
      StoredHoursCombine(after, table, events, name, start, d, n - 1);
      HourCount(after, table, events, name, start, d, n - 1);
    }
  }

  /** The stored figures are those of the events, unless something stale adds to their count. */
  predicate AgreeUnless(stale: bool, stored: Option<Summary>, figures: Option<Summary>) {
    if stale then CountOf(stored) > CountOf(figures) else stored == figures
  }

  /** An empty sequence of windows consists of empty windows. */
  lemma {:induction false} EmptyWindows(events: seq<AnalyticsEvent>, start: Timestamp, d: Dimensions, n: nat, h: nat)
    requires h < n && CombineWindows(events, start, 3600, n, d).None?
    ensures HourSummary(events, start, h, d).None?
  {
    if h < n - 1 {
      EmptyWindows(events, start, d, n - 1, h);
    }
  }

  lemma {:induction false} SameStoredHours(after: seq<MetricRow>, table: seq<MetricRow>, name: string, start: Timestamp,
                                           d: Dimensions, n: nat)
    requires forall h: nat | h < n ::
      StoredSummary(after, HourKey(name, start, h, d)) == StoredSummary(table, HourKey(name, start, h, d))
    ensures CombineStored(after, name, start, n, d) == CombineStored(table, name, start, n, d)
  {
    if n > 0 {
      SameStoredHours(after, table, name, start, d, n - 1);
    }
  }

  lemma {:induction false} DayWithoutEvents(tables: seq<seq<MetricRow>>, events: seq<AnalyticsEvent>, name: string,
                                            start: Timestamp, d: Dimensions, after: seq<MetricRow>)
    requires IsDay(tables, events, name, start, after) && KeysUnique(tables[0])
    requires Summarize(events, start, start + 86400, d).None?
    ensures RollsUp(after, name, start, d) <==> RollsUp(tables[0], name, start, d)
  {
    RollUp(events, start, 3600, 24, d);
    forall h: nat | h < 24
      ensures StoredSummary(after, HourKey(name, start, h, d)) == StoredSummary(tables[0], HourKey(name, start, h, d))
    {
      HourAfterDay(tables, events, name, start, d, h, after);
      EmptyWindows(events, start, d, 24, h);
    }
    SameStoredHours(after, tables[0], name, start, d, 24);
    DayAfterDay(tables, events, name, start, d, after);
  }

  lemma {:induction false} DayWithEvents(tables: seq<seq<MetricRow>>, events: seq<AnalyticsEvent>, name: string,
                                         start: Timestamp, d: Dimensions, after: seq<MetricRow>)
    requires IsDay(tables, events, name, start, after) && TableValid(tables[0])
    requires Summarize(events, start, start + 86400, d).Some?
    ensures RollsUp(after, name, start, d) <==> !StaleBefore(tables[0], events, name, start, d, 24)
  {
    RollUp(events, start, 3600, 24, d);
    forall h: nat | h < 24
      ensures HourHolds(after, tables[0], events, name, start, d, h, true)
    {
      HourAfterDay(tables, events, name, start, d, h, after);
    }
    StoredHoursCombine(after, tables[0], events, name, start, d, 24);
    DayAfterDay(tables, events, name, start, d, after);
  }

  /** In the table: after 24 consecutive hours and the day they make up have been aggregated, over any
      older rows, the day's row is the combination of the 24 hour rows if and only if no hour's row is
      stale; a group without events in the day rolls up exactly if it did before. */
  lemma {:induction false} DayRowIsRollUpOfHourRows(tables: seq<seq<MetricRow>>, events: seq<AnalyticsEvent>,
                                                    name: string, start: Timestamp, d: Dimensions,
                                                    after: seq<MetricRow>)
    requires IsDay(tables, events, name, start, after) && TableValid(tables[0])
    ensures RollsUp(after, name, start, d)
       <==> if Summarize(events, start, start + 86400, d).Some?
            then forall h | 0 <= h < 24 :: !StaleHour(tables[0], events, name, start, d, h)
            else RollsUp(tables[0], name, start, d)
  {
    if Summarize(events, start, start + 86400, d).Some? {
      DayWithEvents(tables, events, name, start, d, after);
    } else {
      DayWithoutEvents(tables, events, name, start, d, after);
    }
  }

  /** Late events only add to a group: when every stored hour, and a stored day, still has events, the day
      rolls up after it has been aggregated again. */
  lemma {:induction false} LateEventsRollUp(tables: seq<seq<MetricRow>>, events: seq<AnalyticsEvent>, name: string,
                                            start: Timestamp, d: Dimensions, after: seq<MetricRow>)
    requires IsDay(tables, events, name, start, after) && TableValid(tables[0])
    requires forall h | 0 <= h < 24 :: !StaleHour(tables[0], events, name, start, d, h)
    requires StoredSummary(tables[0], Key(name, Day, start, d)).Some? ==>
               Summarize(events, start, start + 86400, d).Some?
    ensures RollsUp(after, name, start, d)
  {
    DayRowIsRollUpOfHourRows(tables, events, name, start, d, after);
    if Summarize(events, start, start + 86400, d).None? {
      RollUp(events, start, 3600, 24, d);
      forall h: nat | h < 24
        ensures StoredSummary(tables[0], HourKey(name, start, h, d)).None?
      {
        assert !StaleHour(tables[0], events, name, start, d, h);
        EmptyWindows(events, start, d, 24, h);
      }
      NothingStored(tables[0], name, start, d, 24);
    }
  }

  lemma {:induction false} NothingStored(table: seq<MetricRow>, name: string, start: Timestamp, d: Dimensions, n: nat)
    requires forall h: nat | h < n :: StoredSummary(table, HourKey(name, start, h, d)).None?
    ensures CombineStored(table, name, start, n, d).None?
  {
    if n > 0 {
      NothingStored(table, name, start, d, n - 1);
    }
  }

  lemma {:induction false} SomeHours(table: seq<MetricRow>, events: seq<AnalyticsEvent>, name: string, start: Timestamp,
                                     n: nat)
      returns (tables: seq<seq<MetricRow>>)
    ensures AreHours(tables, events, name, start, n) && tables[0] == table
  {
    tables := [table];
    if n > 0 {
      var first := SomeHours(table, events, name, start, n - 1);
      tables := first + [Aggregated(first[n - 1], events, name, Hour, start + (n - 1) * 3600, 0)];
      forall k | 0 <= k < n
        ensures HourAt(tables, events, name, start, k)
      {
        if k < n - 1 {
          assert HourAt(first, events, name, start, k);
        }
      }
    }
  }

  lemma {:induction false} HourRowIsThere(name: string, d: Dimensions, table: seq<MetricRow>)
    requires table == Aggregated([], [AnalyticsEvent(0, d, Some(1.0))], name, Hour, 0, 0)
    ensures TableValid(table) && StoredSummary(table, HourKey(name, 0, 0, d)).Some?
  {
    var removed := AnalyticsEvent(0, d, Some(1.0));
    AggregatedIsValid([], [removed], name, Hour, 0, 0);
    OneEvent(removed, 0, 3600, d);
    OneWindowStored([], [removed], name, Hour, 0, 3600, HourKey(name, 0, 0, d), table);
  }

  /** An event of hour 0 is aggregated and then removed; when the day is aggregated again for an event of
      hour 1, the row of hour 0 is still there, and the hours no longer combine to the day. */
  lemma {:induction false} StaleHourBreaksRollUp(name: string, d: Dimensions)
      returns (events: seq<AnalyticsEvent>, tables: seq<seq<MetricRow>>, after: seq<MetricRow>)
    ensures events == [AnalyticsEvent(3600, d, Some(1.0))] && IsDay(tables, events, name, 0, after)
    ensures tables[0] == Aggregated([], [AnalyticsEvent(0, d, Some(1.0))], name, Hour, 0, 0)
    ensures StaleHour(tables[0], events, name, 0, d, 0) && !RollsUp(after, name, 0, d)
  {
    events := [AnalyticsEvent(3600, d, Some(1.0))];
    tables := SomeHours(Aggregated([], [AnalyticsEvent(0, d, Some(1.0))], name, Hour, 0, 0), events, name, 0, 24);
    after := Aggregated(tables[24], events, name, Day, 0, 0);
    HourRowIsThere(name, d, tables[0]);
    OneEvent(events[0], 0, 3600, d);
    OneEvent(events[0], 0, 86400, d);
    assert StaleHour(tables[0], events, name, 0, d, 0);
    DayRowIsRollUpOfHourRows(tables, events, name, 0, d, after);
  }

  lemma {:induction false} OneEvent(e: AnalyticsEvent, start: Timestamp, end: Timestamp, d: Dimensions)
    requires e.dimensions == d && e.value.Some?
    ensures Summarize([e], start, end, d).Some? <==> start <= e.createdAt < end
  {
    assert [e][..0] == [];
  }
}
