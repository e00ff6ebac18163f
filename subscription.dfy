/**
 * Subscriptions: the end date of `add_subscription` (month arithmetic on
 * the calendar date, the day of the month kept), and the table keyed by
 * entity id that `add_subscription` writes with INSERT OR REPLACE and
 * `get_subscription` reads.
 */
module Subscription {
  import opened Wrappers

  // ---------------------------------------------------------------------
  // The proleptic Gregorian calendar of Python's `datetime`
  // ---------------------------------------------------------------------

  const MinYear := 1
  const MaxYear := 9999
  const SecondsPerDay := 86400

  datatype Date = Date(year: int, month: int, day: int)

  /** `datetime.now()`: a date and the seconds elapsed since its midnight. */
  datatype DateTime = DateTime(date: Date, second: int)

  predicate IsLeap(year: int)
  {
    year % 4 == 0 && (year % 100 != 0 || year % 400 == 0)
  }

  function DaysInMonth(year: int, month: int): (n: int)
    requires 1 <= month <= 12
    ensures 28 <= n <= 31
  {
    if month == 2 then (if IsLeap(year) then 29 else 28)
    else if month == 4 || month == 6 || month == 9 || month == 11 then 30
    else 31
  }

  /** The dates the `datetime` constructor accepts; any other raises `ValueError`. */
  predicate ValidDate(d: Date)
  {
    MinYear <= d.year <= MaxYear && 1 <= d.month <= 12 && 1 <= d.day <= DaysInMonth(d.year, d.month)
  }

  predicate ValidDateTime(t: DateTime)
  {
    ValidDate(t.date) && 0 <= t.second < SecondsPerDay
  }

  /** The days of the years before `year`. */
  function DaysBeforeYear(year: int): int
  {
    var y := year - 1;
    365 * y + y / 4 - y / 100 + y / 400
  }

  /** The days of the months of `year` before `month`. */
  function DaysBeforeMonth(year: int, month: int): int
    requires 1 <= month <= 13
    decreases month
  {
    if month == 1 then 0 else DaysBeforeMonth(year, month - 1) + DaysInMonth(year, month - 1)
  }

  /** The ordinal of a date, 1 for 0001-01-01, as `date.toordinal()`. */
  function Ordinal(d: Date): int
    requires 1 <= d.month <= 12
  {
    DaysBeforeYear(d.year) + DaysBeforeMonth(d.year, d.month) + d.day
  }

  // ---------------------------------------------------------------------
  // End date
  // ---------------------------------------------------------------------

  /**
   * The end date of a subscription of `months` months started on `start`:
   * month `((m + months - 1) mod 12) + 1` of year `y + (m + months - 1) div 12`,
   * on the same day of the month. Python's `//` and `%` by 12 round towards
   * negative infinity, which for a positive divisor is Dafny's `/` and `%`.
   * `None` when that day does not exist in the end month or the year is out
   * of range: the constructor raises and `add_subscription` returns False.
   */
  function EndDate(start: Date, months: int): (r: Option<Date>)
    ensures r.Some? ==> ValidDate(r.value) && r.value.day == start.day
    ensures r.Some? ==> 1 <= r.value.month <= 12
    ensures r.Some? ==> r.value.year * 12 + r.value.month == start.year * 12 + start.month + months
  {
    var shifted := start.month + months - 1;
    var end := Date(start.year + shifted / 12, shifted % 12 + 1, start.day);
    if ValidDate(end) then Some(end) else None
  }

  /** A month ahead of the 31st of January has no valid end date: the subscription is refused. */
  lemma EndOfJanuaryRefused()
    ensures EndDate(Date(2025, 1, 31), 1).None?
  {
  }

  /** Day 1 to 28 of any month always has an end date within the year range. */
  lemma EarlyDaysAlwaysEnd(start: Date, months: int)
    requires ValidDate(start) && start.day <= 28
    requires MinYear <= start.year + (start.month + months - 1) / 12 <= MaxYear
    ensures EndDate(start, months).Some?
  {
  }

  // ---------------------------------------------------------------------
  // The length of a twelve-month subscription
  // ---------------------------------------------------------------------

  /** `(end - start).days` for a start with a time of day and an end at midnight. */
  function ElapsedDays(start: DateTime, end: Date): int
    requires 1 <= start.date.month <= 12 && 1 <= end.month <= 12
  {
    ((Ordinal(end) - Ordinal(start.date)) * SecondsPerDay - start.second) / SecondsPerDay
  }

  /** The length of a year: 366 days in a leap year, else 365. */
  lemma YearLength(year: int)
    ensures DaysBeforeYear(year + 1) - DaysBeforeYear(year) == if IsLeap(year) then 366 else 365
  {
    assert year / 4 - (year - 1) / 4 == if year % 4 == 0 then 1 else 0;
    assert year / 100 - (year - 1) / 100 == if year % 100 == 0 then 1 else 0;
    assert year / 400 - (year - 1) / 400 == if year % 400 == 0 then 1 else 0;
  }

  /** Months after February are the same length in every year. */
  lemma {:induction false} MonthsAfterFebruary(a: int, b: int, month: int)
    requires 3 <= month <= 13
    ensures DaysBeforeMonth(a, month) - DaysBeforeMonth(a, 3) == DaysBeforeMonth(b, month) - DaysBeforeMonth(b, 3)
    decreases month
  {
    if month > 3 {
      MonthsAfterFebruary(a, b, month - 1);
    }
  }

  /** The same date a year later is 365 or 366 days on. */
  lemma {:induction false} SameDateNextYear(d: Date)
    requires 1 <= d.month <= 12
    ensures Ordinal(Date(d.year + 1, d.month, d.day)) - Ordinal(d) >= 365
  {
    YearLength(d.year);
    if d.month >= 3 {
      MonthsAfterFebruary(d.year, d.year + 1, d.month);
      assert DaysBeforeMonth(d.year + 1, 3) - DaysBeforeMonth(d.year, 3)
        == DaysInMonth(d.year + 1, 2) - DaysInMonth(d.year, 2);
    } else if d.month == 2 {
      assert DaysBeforeMonth(d.year + 1, 2) == DaysBeforeMonth(d.year, 2);
    }
  }

  /**
   * A twelve-month subscription that gets an end date lasts at least 364
   * whole days, counted from the start's time of day to the end's midnight.
   */
  lemma TwelveMonthSpan(start: DateTime)
    requires ValidDateTime(start)
    requires EndDate(start.date, 12).Some?
    ensures ElapsedDays(start, EndDate(start.date, 12).value) >= 364
  {
    var d := start.date;
    TwelveMonthsLater(d);
    SameDateNextYear(d);
    WholeDays(Ordinal(Date(d.year + 1, d.month, d.day)) - Ordinal(d), start.second);
  }

  lemma TwelveMonthsLater(d: Date)
    requires 1 <= d.month <= 12
    ensures EndDate(d, 12).Some? ==> EndDate(d, 12).value == Date(d.year + 1, d.month, d.day)
  {
    assert (d.month + 11) / 12 == 1 && (d.month + 11) % 12 + 1 == d.month;
  }

  lemma WholeDays(days: int, second: int)
    requires days >= 365 && 0 <= second < SecondsPerDay
    ensures (days * SecondsPerDay - second) / SecondsPerDay >= 364
  {
    var t := days * SecondsPerDay - second;
    assert t >= 364 * SecondsPerDay;
  }

  // ---------------------------------------------------------------------
  // The subscription table
  // ---------------------------------------------------------------------

  datatype Row = Row(tier: string, startDate: DateTime, endDate: Date, isGuild: bool)

  /** `SELECT * ... WHERE entity_id = ? AND is_guild = ?` on a table whose key is the entity id. */
  function Lookup(rows: map<int, Row>, entityId: int, isGuild: bool): (r: Option<Row>)
    ensures r.Some? <==> entityId in rows && rows[entityId].isGuild == isGuild
    ensures r.Some? ==> r.value == rows[entityId]
  {
    if entityId in rows && rows[entityId].isGuild == isGuild then Some(rows[entityId]) else None
  }

  /** `INSERT OR REPLACE`: the entity id alone decides which row is replaced. */
  function Upsert(rows: map<int, Row>, entityId: int, row: Row): (r: map<int, Row>)
    ensures r.Keys == rows.Keys + {entityId}
    ensures r[entityId] == row
    ensures forall id :: id in rows && id != entityId ==> r[id] == rows[id]
  {
    rows[entityId := row]
  }

  /** After an add, the same id and kind find the added tier and dates; other ids read as before. */
  lemma LookupAfterUpsert(rows: map<int, Row>, entityId: int, row: Row, id: int, isGuild: bool)
    ensures id == entityId && isGuild == row.isGuild ==> Lookup(Upsert(rows, entityId, row), id, isGuild) == Some(row)
    ensures id == entityId && isGuild != row.isGuild ==> Lookup(Upsert(rows, entityId, row), id, isGuild).None?
    ensures id != entityId ==> Lookup(Upsert(rows, entityId, row), id, isGuild) == Lookup(rows, id, isGuild)
  {
  }

  /** Adding a guild subscription under a user's id removes the user's row from lookups. */
  lemma UpsertReplacesOtherKind(rows: map<int, Row>, entityId: int, row: Row)
    requires Lookup(rows, entityId, !row.isGuild).Some?
    ensures Lookup(Upsert(rows, entityId, row), entityId, !row.isGuild).None?
  {
  }

  class SubscriptionStore {
    var rows: map<int, Row>

    /** `init_db` on an empty database. */
    constructor ()
      ensures rows == map[]
    {
      rows := map[];
    }

    /** `get_subscription`. */
    function GetSubscription(entityId: int, isGuild: bool): (r: Option<Row>)
      reads this
      ensures r == Lookup(rows, entityId, isGuild)
    {
      Lookup(rows, entityId, isGuild)
    }

    /**
     * `add_subscription` at the moment `now`: False and no write when the
     * end date is invalid, otherwise the row for `entityId` is set.
     */
    method AddSubscription(entityId: int, tier: string, months: int, isGuild: bool, now: DateTime) returns (ok: bool)
      requires ValidDateTime(now)
      modifies this
      ensures ok <==> EndDate(now.date, months).Some?
      ensures !ok ==> rows == old(rows)
      ensures ok ==> rows == Upsert(old(rows), entityId, Row(tier, now, EndDate(now.date, months).value, isGuild))
      ensures ok ==> GetSubscription(entityId, isGuild).Some? && GetSubscription(entityId, isGuild).value.tier == tier
    {
      var end := EndDate(now.date, months);
      if end.None? {
        return false;
      }
      rows := Upsert(rows, entityId, Row(tier, now, end.value, isGuild));
      ok := true;
    }
  }
}
