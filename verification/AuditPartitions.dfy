/** Monthly partitions of the audit log (migration 004 and `create_monthly_audit_partition`).

    Partition bounds are midnights, so that whether a timestamp lies in a partition depends on
    its date alone.
 */
module AuditPartitions {
  import opened Decimals

  datatype Date = Date(year: nat, month: nat, day: nat)

  predicate Leap(y: nat) {
    y % 4 == 0 && (y % 100 != 0 || y % 400 == 0)
  }

  function DaysInMonth(y: nat, month: nat): nat {
    if month == 2 then if Leap(y) then 29 else 28
    else if month in {4, 6, 9, 11} then 30
    else 31
  }

  predicate ValidDate(d: Date) {
    1 <= d.month <= 12 && 1 <= d.day <= DaysInMonth(d.year, d.month)
  }

  predicate Before(a: Date, b: Date) {
    a.year < b.year
    || (a.year == b.year && (a.month < b.month || (a.month == b.month && a.day < b.day)))
  }

  /** Months counted from January of year 0. */
  function MonthOf(d: Date): nat
    requires ValidDate(d)
  {
    12 * d.year + d.month - 1
  }

  function FirstOf(month: nat): (d: Date)
    ensures ValidDate(d) && MonthOf(d) == month
  {
    Date(month / 12, month % 12 + 1, 1)
  }

  /** `d + INTERVAL '1 month'`: the same day of the next month, or that month's last day. */
  function PlusMonth(d: Date): (r: Date)
    requires ValidDate(d)
    ensures ValidDate(r)
  {
    var first := FirstOf(MonthOf(d) + 1);
    var last := DaysInMonth(first.year, first.month);
    first.(day := if d.day <= last then d.day else last)
  }

  /** `DATE_TRUNC('month', d)` */
  function TruncMonth(d: Date): Date { d.(day := 1) }

  /** `'audit_logs_' || TO_CHAR(d, 'YYYY_MM')` */
  function PartitionName(d: Date): string {
    "audit_logs_" + PadTo(Digits(d.year), 4) + "_" + PadTo(Digits(d.month), 2)
  }

  datatype Partition = Partition(name: string, from: Date, to: Date)

  predicate Contains(p: Partition, d: Date) {
    !Before(d, p.from) && Before(d, p.to)
  }

  /** The partition of a month. */
  function MonthPartition(month: nat): Partition {
    Partition(PartitionName(FirstOf(month)), FirstOf(month), FirstOf(month + 1))
  }

  const JANUARY_2025: nat := 24300
  const APRIL_2025: nat := 24303

  function PartitionsOf(months: seq<nat>): seq<Partition> {
    seq(|months|, i requires 0 <= i < |months| => MonthPartition(months[i]))
  }

  /** The bounds of a partition are those of a month. */
  predicate Spans(p: Partition, month: nat) {
    p.from == FirstOf(month) && p.to == FirstOf(month + 1)
  }

  /** The bounds of the partitions are those of the given months, one by one. */
  predicate AllSpan(ps: seq<Partition>, months: seq<nat>) {
    |ps| == |months| && forall i | 0 <= i < |ps| :: Spans(ps[i], months[i])
  }

  predicate HasName(ps: seq<Partition>, name: string) {
    exists i | 0 <= i < |ps| :: ps[i].name == name
  }

  predicate Disjoint(p: Partition, q: Partition) {
    !Before(p.from, q.to) || !Before(q.from, p.to)
  }

  class AuditLogs {
    var partitions: seq<Partition>

    /** The partitions that the migration creates. */
    constructor ()
      ensures partitions == PartitionsOf(MonthsAfter([], 0))
    {
      partitions := [
        Partition("audit_logs_2025_01", Date(2025, 1, 1), Date(2025, 2, 1)),
        Partition("audit_logs_2025_02", Date(2025, 2, 1), Date(2025, 3, 1)),
        Partition("audit_logs_2025_03", Date(2025, 3, 1), Date(2025, 4, 1)),
        Partition("audit_logs_2025_04", Date(2025, 4, 1), Date(2025, 5, 1))];
      InitialNames();
    }

    /** Creates the partition of the month after `today`'s, unless it exists; the range it creates
        never overlaps one that exists. */
    method CreateMonthlyAuditPartition(today: Date, ghost months: seq<nat>)
      requires ValidDate(today) && partitions == PartitionsOf(months)
      modifies this
      ensures partitions == PartitionsOf(if MonthOf(today) + 1 in months then months else months + [MonthOf(today) + 1])
    {
      NextMonth(today);
      var partitionDate := TruncMonth(PlusMonth(today));
      var partitionName := PartitionName(partitionDate);
      var startDate := partitionDate;
      var endDate := PlusMonth(partitionDate);
      NextMonth(partitionDate);
      NameTellsMonth(months, MonthOf(today) + 1);
      if !HasName(partitions, partitionName) {
        var created := Partition(partitionName, startDate, endDate);
        assert forall i | 0 <= i < |partitions| :: Disjoint(partitions[i], created) by {
          PartitionsSpan(months);
          MonthsAreDisjoint(partitions, months, created, MonthOf(today) + 1);
        }
        partitions := partitions + [created];
      }
    }
  }

  // ---------- dates ----------

  /** Truncating the clamped date always gives the first of the next month, short months and year
      ends included; the partition's end is the first of the month after. */
  lemma {:induction false} NextMonth(d: Date)
    requires ValidDate(d)
    ensures TruncMonth(PlusMonth(d)) == FirstOf(MonthOf(d) + 1)
    ensures d.day == 1 ==> PlusMonth(d) == FirstOf(MonthOf(d) + 1)
  {
  }

  lemma {:induction false} BeforeMonth(d: Date, month: nat)
    requires ValidDate(d)
    ensures Before(d, FirstOf(month)) <==> MonthOf(d) < month
  {
    var f := FirstOf(month);
    assert month == 12 * f.year + f.month - 1;
  }

  /** A date lies in a month's partition exactly when it is a date of that month. */
  lemma {:induction false} InMonthPartition(d: Date, p: Partition, month: nat)
    requires ValidDate(d) && Spans(p, month)
    ensures Contains(p, d) <==> MonthOf(d) == month
  {
    BeforeMonth(d, month);
    BeforeMonth(d, month + 1);
  }

  // ---------- names ----------

  lemma {:induction false} InitialNames()
    ensures PartitionsOf(MonthsAfter([], 0)) == [
        Partition("audit_logs_2025_01", Date(2025, 1, 1), Date(2025, 2, 1)),
        Partition("audit_logs_2025_02", Date(2025, 2, 1), Date(2025, 3, 1)),
        Partition("audit_logs_2025_03", Date(2025, 3, 1), Date(2025, 4, 1)),
        Partition("audit_logs_2025_04", Date(2025, 4, 1), Date(2025, 5, 1))]
  {
    InitialName(1, '1');
    InitialName(2, '2');
    InitialName(3, '3');
    InitialName(4, '4');
    assert "audit_logs_2025_0" + ['1'] == "audit_logs_2025_01" && "audit_logs_2025_0" + ['2'] == "audit_logs_2025_02";
    assert "audit_logs_2025_0" + ['3'] == "audit_logs_2025_03" && "audit_logs_2025_0" + ['4'] == "audit_logs_2025_04";
  }

  lemma {:induction false} InitialName(month: nat, digit: char)
    requires 1 <= month <= 9 && digit == DigitChar(month)
    ensures MonthPartition(JANUARY_2025 + month - 1)
         == Partition("audit_logs_2025_0" + [digit], Date(2025, month, 1), Date(2025, month + 1, 1))
  {
    assert FirstOf(JANUARY_2025 + month - 1) == Date(2025, month, 1);
    assert FirstOf(JANUARY_2025 + month) == Date(2025, month + 1, 1);
    assert Digits(2) == "2";
    assert Digits(20) == "20";
    assert Digits(202) == "202";
    assert Digits(2025) == "2025";
    assert PadTo(Digits(month), 2) == "0" + [digit];
    assert PartitionName(Date(2025, month, 1)) == "audit_logs_2025_0" + [digit];
  }

  /** The name ends in the two-digit month, and has the year between the prefix and that. */
  lemma {:induction false} NameParts(d: Date, name: string)
    requires 1 <= d.month <= 12 && name == PartitionName(d)
    ensures |name| >= 14 && name[|name| - 2..] == PadTo(Digits(d.month), 2)
    ensures name[11..|name| - 3] == PadTo(Digits(d.year), 4)
  {
    TwoDigits(d.month);
    var year, month := PadTo(Digits(d.year), 4), PadTo(Digits(d.month), 2);
    assert |"audit_logs_"| == 11;
    assert |name| == 11 + |year| + 1 + 2;
  }

  lemma {:induction false} PaddedIsInjective(n: nat, m: nat, width: nat)
    requires PadTo(Digits(n), width) == PadTo(Digits(m), width)
    ensures n == m
  {
    ValueOfPadded(n, width);
    ValueOfPadded(m, width);
  }

  lemma {:induction false} SameNameSameParts(x: Date, y: Date, name: string)
    requires 1 <= x.month <= 12 && 1 <= y.month <= 12 && name == PartitionName(x) == PartitionName(y)
    ensures x.year == y.year && x.month == y.month
  {
    NameParts(x, name);
    NameParts(y, name);
    PaddedIsInjective(x.year, y.year, 4);
    PaddedIsInjective(x.month, y.month, 2);
  }

  lemma {:induction false} NamesAreInjective(a: nat, b: nat)
    ensures MonthPartition(a).name == MonthPartition(b).name <==> a == b
  {
    var x, y := FirstOf(a), FirstOf(b);
    if PartitionName(x) == PartitionName(y) {
      SameNameSameParts(x, y, PartitionName(x));
      assert a == MonthOf(x) && b == MonthOf(y);
    }
  }

  lemma {:induction false} TwoDigits(month: nat)
    requires 1 <= month <= 12
    ensures |PadTo(Digits(month), 2)| == 2
  {
  }

  /** A month's partition exists exactly when a partition of its name exists. */
  lemma {:induction false} NameTellsMonth(months: seq<nat>, month: nat)
    ensures HasName(PartitionsOf(months), MonthPartition(month).name) <==> month in months
  {
    var ps := PartitionsOf(months);
    if i :| 0 <= i < |ps| && ps[i].name == MonthPartition(month).name {
      NamesAreInjective(months[i], month);
    }
    if month in months {
      var i :| 0 <= i < |months| && months[i] == month;
      assert ps[i].name == MonthPartition(month).name;
    }
  }

  lemma {:induction false} PartitionsSpan(months: seq<nat>)
    ensures AllSpan(PartitionsOf(months), months)
  {
  }

  /** Partitions of different months do not overlap. */
  lemma {:induction false} MonthsAreDisjoint(ps: seq<Partition>, months: seq<nat>, p: Partition, month: nat)
    requires AllSpan(ps, months) && Spans(p, month) && month !in months
    ensures forall i | 0 <= i < |ps| :: Disjoint(ps[i], p)
  {
    forall i | 0 <= i < |ps|
      ensures Disjoint(ps[i], p)
    {
      BeforeMonth(FirstOf(months[i]), month + 1);
      BeforeMonth(FirstOf(month), months[i] + 1);
    }
  }

  // ---------- coverage, over every run of calls ----------

  /** The months that have a partition after the first `k` calls, made on the given days. */
  function MonthsAfter(days: seq<Date>, k: nat): seq<nat>
    requires k <= |days| && forall i | 0 <= i < |days| :: ValidDate(days[i])
  {
    if k == 0 then [JANUARY_2025, JANUARY_2025 + 1, JANUARY_2025 + 2, APRIL_2025]
    else
      var months, next := MonthsAfter(days, k - 1), MonthOf(days[k - 1]) + 1;
      if next in months then months else months + [next]
  }

  predicate CalledIn(days: seq<Date>, k: nat, month: nat)
    requires k <= |days| && forall i | 0 <= i < |days| :: ValidDate(days[i])
  {
    exists i | 0 <= i < k :: MonthOf(days[i]) == month
  }

  lemma {:induction false} MonthsAreDistinct(days: seq<Date>, k: nat)
    requires k <= |days| && forall i | 0 <= i < |days| :: ValidDate(days[i])
    ensures forall i, j | 0 <= i < j < |MonthsAfter(days, k)| :: MonthsAfter(days, k)[i] != MonthsAfter(days, k)[j]
  {
    if k > 0 {
      MonthsAreDistinct(days, k - 1);
    }
  }

  lemma {:induction false} MonthsFromCalls(days: seq<Date>, k: nat, month: nat)
    requires k <= |days| && forall i | 0 <= i < |days| :: ValidDate(days[i])
    ensures month in MonthsAfter(days, k)
       <==> JANUARY_2025 <= month <= APRIL_2025 || (month > 0 && CalledIn(days, k, month - 1))
  {
    if k > 0 {
      MonthsFromCalls(days, k - 1, month);
      if month > 0 && MonthOf(days[k - 1]) == month - 1 {
        assert CalledIn(days, k, month - 1);
      }
    }
  }

  /** How many partitions hold a date. */
  function Holding(ps: seq<Partition>, d: Date): nat {
    if ps == [] then 0 else Holding(ps[..|ps| - 1], d) + if Contains(ps[|ps| - 1], d) then 1 else 0
  }

  lemma {:induction false} HoldingOfMonths(ps: seq<Partition>, months: seq<nat>, d: Date)
    requires AllSpan(ps, months) && ValidDate(d)
    requires forall i, j | 0 <= i < j < |months| :: months[i] != months[j]
    ensures Holding(ps, d) == if MonthOf(d) in months then 1 else 0
  {
    if months != [] {
      var n := |months| - 1;
      assert months == months[..n] + [months[n]];
      HoldingOfMonths(ps[..n], months[..n], d);
      InMonthPartition(d, ps[n], months[n]);
    }
  }

  /** The partitions after the first `k` calls, by their bounds. */
  ghost predicate PartitionsAfter(days: seq<Date>, k: nat, ps: seq<Partition>)
    requires k <= |days| && forall i | 0 <= i < |days| :: ValidDate(days[i])
  {
    AllSpan(ps, MonthsAfter(days, k))
  }

  /** In every reachable state a date lies in at most one partition, and in one exactly when its
      month is one of the initial four or follows a month in which the function ran. */
  lemma {:induction false} OnePartitionPerDate(days: seq<Date>, k: nat, ps: seq<Partition>, d: Date)
    requires k <= |days| && (forall i | 0 <= i < |days| :: ValidDate(days[i])) && ValidDate(d)
    requires PartitionsAfter(days, k, ps)
    ensures Holding(ps, d)
         == if JANUARY_2025 <= MonthOf(d) <= APRIL_2025 || (MonthOf(d) > 0 && CalledIn(days, k, MonthOf(d) - 1))
            then 1 else 0
  {
    MonthsFromCalls(days, k, MonthOf(d));
    MonthsAreDistinct(days, k);
    HoldingOfMonths(ps, MonthsAfter(days, k), d);
  }

  /** Coverage: every date from January 2025 to the end of the month after `last` lies in exactly one
      partition if and only if the function ran in every month from April 2025 to `last`. */
  lemma {:induction false} CoverageIffEveryMonth(days: seq<Date>, k: nat, ps: seq<Partition>, last: nat)
    requires k <= |days| && (forall i | 0 <= i < |days| :: ValidDate(days[i])) && APRIL_2025 <= last
    requires PartitionsAfter(days, k, ps)
    ensures (forall d | ValidDate(d) && JANUARY_2025 <= MonthOf(d) <= last + 1 :: Holding(ps, d) == 1)
       <==> (forall month | APRIL_2025 <= month <= last :: CalledIn(days, k, month))
  {
    if forall d | ValidDate(d) && JANUARY_2025 <= MonthOf(d) <= last + 1 :: Holding(ps, d) == 1 {
      forall month | APRIL_2025 <= month <= last
        ensures CalledIn(days, k, month)
      {
        OnePartitionPerDate(days, k, ps, FirstOf(month + 1));
      }
    }
    if forall month | APRIL_2025 <= month <= last :: CalledIn(days, k, month) {
      forall d | ValidDate(d) && JANUARY_2025 <= MonthOf(d) <= last + 1
        ensures Holding(ps, d) == 1
      {
        OnePartitionPerDate(days, k, ps, d);
      }
    }
  }

  /** The partitions that the program creates are such partitions: those of the migration, and those of
      the migration and `k` calls. */
  lemma {:induction false} CreatedPartitions(days: seq<Date>, k: nat)
    requires k <= |days| && forall i | 0 <= i < |days| :: ValidDate(days[i])
    ensures PartitionsAfter(days, k, PartitionsOf(MonthsAfter(days, k)))
  {
    PartitionsSpan(MonthsAfter(days, k));
  }

  /** A call changes nothing if and only if the function already ran in the same month, at any earlier time,
      or the month after is one of the initial four. */
  lemma {:induction false} SecondCallIsIdle(days: seq<Date>, k: nat)
    requires k < |days| && (forall i | 0 <= i < |days| :: ValidDate(days[i]))
    ensures MonthsAfter(days, k + 1) == MonthsAfter(days, k)
       <==> CalledIn(days, k, MonthOf(days[k])) || JANUARY_2025 <= MonthOf(days[k]) + 1 <= APRIL_2025
  {
    MonthsFromCalls(days, k, MonthOf(days[k]) + 1);
  }
}
