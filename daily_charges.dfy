/** An independent statement of the billing rule and the properties of the
    calculator's closed form: the interval is split into the parts that fall
    on each calendar day it touches, each part is capped separately, and the
    parts are added. */
module DailyCharges {
  import opened Time
  import opened IncomeCalculator

  function Min(a: int, b: int): int { if a <= b then a else b }
  function Max(a: int, b: int): int { if a <= b then b else a }

  /** The ticks of the interval from `start` to `end` that fall on day `d`. */
  function DayShare(d: nat, start: Ticks, end: Ticks): int
  {
    Min(end, (d + 1) * TicksPerDay) - Max(start, d * TicksPerDay)
  }

  /** What day `d` contributes: its share of the interval, capped. */
  function DayCharge(d: nat, start: Ticks, end: Ticks, price: real, cap: int): real
  {
    CappedAt(TotalMinutes(DayShare(d, start, end)) * price, cap)
  }

  /** The charges of the `n` consecutive days starting with day `first`. */
  function ChargesOfDays(first: nat, n: nat, start: Ticks, end: Ticks, price: real, cap: int): real
  {
    if n == 0 then 0.0
    else ChargesOfDays(first, n - 1, start, end, price, cap) + DayCharge(first + n - 1, start, end, price, cap)
  }

  /** The reference income: every day from the start's date to the end's
      date, inclusive, charged separately. */
  function PerDayIncome(start: Ticks, end: Ticks, price: real, cap: int): real
    requires start <= end
  {
    ChargesOfDays(DayNumber(start), DayNumber(end) - DayNumber(start) + 1, start, end, price, cap)
  }

  /** The days can also be peeled off from the front. */
  lemma {:induction false} ChargesOfDaysFront(first: nat, n: nat, start: Ticks, end: Ticks, price: real, cap: int)
    ensures ChargesOfDays(first, n + 1, start, end, price, cap)
         == DayCharge(first, start, end, price, cap) + ChargesOfDays(first + 1, n, start, end, price, cap)
  {
    if n > 0 {
      ChargesOfDaysFront(first, n - 1, start, end, price, cap);
    }
  }

  /** Every day strictly inside the interval is a whole day and is charged
      the capped full-day amount. */
  lemma {:induction false} InnerDays(first: nat, n: nat, start: Ticks, end: Ticks, price: real, cap: int)
    requires DayNumber(start) < first && first + n <= DayNumber(end)
    ensures ChargesOfDays(first, n, start, end, price, cap) == FullDaysCharge(n, price, cap)
  {
    if n > 0 {
      InnerDays(first, n - 1, start, end, price, cap);
      InnerDay(first + n - 1, start, end, price, cap);
    }
  }

  /** A day strictly between the dates of the ends is covered whole. */
  lemma InnerDay(d: nat, start: Ticks, end: Ticks, price: real, cap: int)
    requires DayNumber(start) < d < DayNumber(end)
    ensures DayCharge(d, start, end, price, cap) == FullDayCharge(price, cap)
  {
    assert start < d * TicksPerDay by {
      assert start < (DayNumber(start) + 1) * TicksPerDay;
    }
    assert (d + 1) * TicksPerDay <= end by {
      assert DayNumber(end) * TicksPerDay <= end;
    }
    assert DayShare(d, start, end) == TicksPerDay;
    MinutesInADay();
  }

  /** The shares of the first and the last day of an interval spanning
      several dates, and the share of a single-date interval. */
  lemma EdgeShares(start: Ticks, end: Ticks)
    requires start <= end
    ensures DayNumber(start) == DayNumber(end) ==> DayShare(DayNumber(start), start, end) == end - start
    ensures DayNumber(start) < DayNumber(end) ==>
              DayShare(DayNumber(start), start, end) == Date(start) + TicksPerDay - start
              && DayShare(DayNumber(end), start, end) == end - Date(end)
  {
  }

  /** The calculator's closed form agrees with charging every calendar day
      of the interval separately. */
  lemma IntervalIncomeIsPerDayIncome(start: Ticks, end: Ticks, price: real, cap: int)
    requires start <= end
    ensures IntervalIncome(start, end, price, cap) == PerDayIncome(start, end, price, cap)
  {
    SameDate(start, end);
    if DayNumber(start) == DayNumber(end) {
      SingleDate(start, end, price, cap);
    } else {
      SeveralDates(start, end, price, cap);
    }
  }

  lemma SingleDate(start: Ticks, end: Ticks, price: real, cap: int)
    requires start <= end && DayNumber(start) == DayNumber(end)
    ensures PerDayIncome(start, end, price, cap) == CappedAt(TotalMinutes(end - start) * price, cap)
  {
    var d0 := DayNumber(start);
    EdgeShares(start, end);
    assert ChargesOfDays(d0, 1, start, end, price, cap) == 0.0 + DayCharge(d0, start, end, price, cap);
  }

  /** Over several dates the reference income is the first day, the days in
      between and the last day. */
  lemma PerDayIncomeSplit(start: Ticks, end: Ticks, price: real, cap: int)
    requires start <= end && DayNumber(start) < DayNumber(end)
    ensures PerDayIncome(start, end, price, cap)
         == DayCharge(DayNumber(start), start, end, price, cap)
            + ChargesOfDays(DayNumber(start) + 1, DaysBetween(start, end), start, end, price, cap)
            + DayCharge(DayNumber(end), start, end, price, cap)
  {
    var d0, k := DayNumber(start), DaysBetween(start, end);
    assert PerDayIncome(start, end, price, cap)
        == ChargesOfDays(d0, k + 1, start, end, price, cap) + DayCharge(DayNumber(end), start, end, price, cap);
    ChargesOfDaysFront(d0, k, start, end, price, cap);
  }

  lemma SeveralDates(start: Ticks, end: Ticks, price: real, cap: int)
    requires start <= end && DayNumber(start) < DayNumber(end)
    ensures PerDayIncome(start, end, price, cap) == IntervalIncome(start, end, price, cap)
  {
    var d0, d1, k := DayNumber(start), DayNumber(end), DaysBetween(start, end);
    assert PerDayIncome(start, end, price, cap)
        == DayCharge(d0, start, end, price, cap) + ChargesOfDays(d0 + 1, k, start, end, price, cap)
           + DayCharge(d1, start, end, price, cap) by {
      PerDayIncomeSplit(start, end, price, cap);
    }
    InnerDays(d0 + 1, k, start, end, price, cap);
    EdgeCharges(start, end, price, cap);
    SeveralDatesForm(start, end, price, cap);
  }

  /** The first and the last day of an interval spanning several dates are
      charged what the calculator charges for them. */
  lemma EdgeCharges(start: Ticks, end: Ticks, price: real, cap: int)
    requires start <= end && DayNumber(start) < DayNumber(end)
    ensures DayCharge(DayNumber(start), start, end, price, cap) == FirstDayCharge(start, price, cap)
    ensures DayCharge(DayNumber(end), start, end, price, cap) == LastDayCharge(end, price, cap)
  {
    EdgeShares(start, end);
    assert TotalMinutes(DayShare(DayNumber(start), start, end)) == FirstDayMinutes(start);
    assert TotalMinutes(DayShare(DayNumber(end), start, end)) == LastDayMinutes(end);
  }

  /** The closed form over several dates: the whole days are exactly the
      days between the two dates. */
  lemma SeveralDatesForm(start: Ticks, end: Ticks, price: real, cap: int)
    requires start <= end && (Date(start) != Date(end) || DayNumber(start) < DayNumber(end))
    ensures DayNumber(start) < DayNumber(end) && Date(start) != Date(end)
    ensures WholeDays(start, end) == DaysBetween(start, end)
    ensures IntervalIncome(start, end, price, cap)
         == FirstDayCharge(start, price, cap) + LastDayCharge(end, price, cap)
            + FullDaysCharge(WholeDays(start, end), price, cap)
  {
    SameDate(start, end);
  }

  /** The minutes of an interval that spans several dates are those of its
      first day, its last day and the whole days in between. */
  lemma SplitMinutes(start: Ticks, end: Ticks)
    requires start <= end && Date(start) != Date(end)
    ensures TotalMinutes(end - start)
         == FirstDayMinutes(start) + LastDayMinutes(end) + DaysBetween(start, end) as real * MinutesPerDay as real
  {
    SameDate(start, end);
    var k := DaysBetween(start, end);
    assert end - start == (Date(start) + TicksPerDay - start) + (end - Date(end)) + k * TicksPerDay;
  }

  /** A single-date interval lasts at most a day. */
  lemma SingleDateMinutes(start: Ticks, end: Ticks)
    requires start <= end && Date(start) == Date(end)
    ensures 0.0 <= TotalMinutes(end - start) <= MinutesPerDay as real
  {
  }

  /** Multiplying by a non-negative count keeps an inequality. */
  lemma ScaleMonotone(k: real, a: real, b: real)
    requires k >= 0.0 && a <= b
    ensures k * a <= k * b
  {
    assert k * b - k * a == k * (b - a);
  }

  /** Capped parts never add up to more than the uncapped whole: `income`
      is made of two capped parts and `k` capped days, `total` of the
      corresponding minutes. */
  lemma CappedPartsAtMost(income: real, total: real, f: real, l: real, full: real,
                          a: real, b: real, day: real, k: real, p: real)
    requires income == f + l + k * full && total == a + b + k * day
    requires k >= 0.0 && f <= a * p && l <= b * p && full <= day * p
    ensures income <= total * p
  {
    ScaleMonotone(k, full, day * p);
    assert total * p == a * p + b * p + k * (day * p);
  }

  /** Parts that are each at most the cap add up to at most one cap per part. */
  lemma CappedPartsAtMostCaps(income: real, count: real, f: real, l: real, full: real, k: real, c: real)
    requires income == f + l + k * full && count == k + 2.0
    requires k >= 0.0 && f <= c && l <= c && full <= c
    ensures income <= count * c
  {
    ScaleMonotone(k, full, c);
  }

  /** Uncapped parts add up to the uncapped whole. */
  lemma UncappedParts(income: real, total: real, f: real, l: real, full: real,
                      a: real, b: real, day: real, k: real, p: real)
    requires income == f + l + k * full && total == a + b + k * day
    requires f == a * p && l == b * p && full == day * p
    ensures income == total * p
  {
    assert total * p == a * p + b * p + k * (day * p);
  }

  /** The several-date closed form with the whole days as a product. */
  lemma SeveralDatesProduct(start: Ticks, end: Ticks, price: real, cap: int)
    requires start <= end && Date(start) != Date(end)
    ensures DaysBetween(start, end) >= 0
    ensures IntervalIncome(start, end, price, cap)
         == FirstDayCharge(start, price, cap) + LastDayCharge(end, price, cap)
            + DaysBetween(start, end) as real * FullDayCharge(price, cap)
  {
    SeveralDatesForm(start, end, price, cap);
    FullDaysIsProduct(WholeDays(start, end), price, cap);
  }

  /** No calendar day contributes more than the cap: an interval touching
      n dates earns at most n times the cap. */
  lemma IncomeAtMostCapPerDate(start: Ticks, end: Ticks, price: real, cap: int)
    requires start <= end
    ensures IntervalIncome(start, end, price, cap)
         <= (DayNumber(end) - DayNumber(start) + 1) as real * cap as real
  {
    SameDate(start, end);
    if Date(start) == Date(end) {
      assert (DayNumber(end) - DayNumber(start) + 1) as real == 1.0;
    } else {
      SeveralDatesProduct(start, end, price, cap);
      CappedPartsAtMostCaps(IntervalIncome(start, end, price, cap), (DayNumber(end) - DayNumber(start) + 1) as real,
                            FirstDayCharge(start, price, cap), LastDayCharge(end, price, cap), FullDayCharge(price, cap),
                            DaysBetween(start, end) as real, cap as real);
    }
  }

  /** Capping never raises the bill above the uncapped per-minute cost. */
  lemma IncomeAtMostUncapped(start: Ticks, end: Ticks, price: real, cap: int)
    requires start <= end
    ensures IntervalIncome(start, end, price, cap) <= TotalMinutes(end - start) * price
  {
    if Date(start) != Date(end) {
      SeveralDatesProduct(start, end, price, cap);
      SplitMinutes(start, end);
      CappedPartsAtMost(IntervalIncome(start, end, price, cap), TotalMinutes(end - start),
                        FirstDayCharge(start, price, cap), LastDayCharge(end, price, cap), FullDayCharge(price, cap),
                        FirstDayMinutes(start), LastDayMinutes(end), MinutesPerDay as real,
                        DaysBetween(start, end) as real, price);
    }
  }

  /** When a whole day at the price stays within the cap, no part is capped
      and the bill is the plain per-minute cost. */
  lemma IncomeUncappedWhenDayFitsCap(start: Ticks, end: Ticks, price: real, cap: int)
    requires start <= end && price >= 0.0
    requires MinutesPerDay as real * price <= cap as real
    ensures IntervalIncome(start, end, price, cap) == TotalMinutes(end - start) * price
  {
    if Date(start) == Date(end) {
      SingleDateMinutes(start, end);
      DayPart(TotalMinutes(end - start), price, cap);
    } else {
      SeveralDatesProduct(start, end, price, cap);
      SplitMinutes(start, end);
      ChargesUncapped(start, end, price, cap);
      UncappedParts(IntervalIncome(start, end, price, cap), TotalMinutes(end - start),
                    FirstDayCharge(start, price, cap), LastDayCharge(end, price, cap), FullDayCharge(price, cap),
                    FirstDayMinutes(start), LastDayMinutes(end), MinutesPerDay as real,
                    DaysBetween(start, end) as real, price);
    }
  }

  /** With a non-negative price and cap, a forward interval never costs less than nothing. */
  lemma IncomeNonNegative(start: Ticks, end: Ticks, price: real, cap: int)
    requires start <= end && price >= 0.0 && cap >= 0
    ensures IntervalIncome(start, end, price, cap) >= 0.0
  {
    if Date(start) == Date(end) {
      SingleDateMinutes(start, end);
      DayPart(TotalMinutes(end - start), price, cap);
    } else {
      SeveralDatesForm(start, end, price, cap);
      ChargesNonNegative(start, end, price, cap);
      FullDaysNonNegative(WholeDays(start, end), price, cap);
    }
  }

  /** At a non-negative price and cap no day's charge is negative. */
  lemma ChargesNonNegative(start: Ticks, end: Ticks, price: real, cap: int)
    requires price >= 0.0 && cap >= 0
    ensures FirstDayCharge(start, price, cap) >= 0.0 && LastDayCharge(end, price, cap) >= 0.0
    ensures FullDayCharge(price, cap) >= 0.0
  {
    DayPart(FirstDayMinutes(start), price, cap);
    DayPart(LastDayMinutes(end), price, cap);
    DayPart(MinutesPerDay as real, price, cap);
  }

  /** When a whole day at the price stays within the cap, no day's charge is capped. */
  lemma ChargesUncapped(start: Ticks, end: Ticks, price: real, cap: int)
    requires price >= 0.0 && MinutesPerDay as real * price <= cap as real
    ensures FirstDayCharge(start, price, cap) == FirstDayMinutes(start) * price
    ensures LastDayCharge(end, price, cap) == LastDayMinutes(end) * price
    ensures FullDayCharge(price, cap) == MinutesPerDay as real * price
  {
    DayPart(FirstDayMinutes(start), price, cap);
    DayPart(LastDayMinutes(end), price, cap);
    DayPart(MinutesPerDay as real, price, cap);
  }

  /** Whole days at a non-negative price and cap cost nothing negative. */
  lemma {:induction false} FullDaysNonNegative(n: nat, price: real, cap: int)
    requires price >= 0.0 && cap >= 0
    ensures FullDaysCharge(n, price, cap) >= 0.0
  {
    if n > 0 {
      FullDaysNonNegative(n - 1, price, cap);
      DayPart(MinutesPerDay as real, price, cap);
    }
  }

  /** An interval that ends exactly at a midnight earns nothing on its last
      date: only the first day and the days in between are charged. */
  lemma EndingAtMidnight(start: Ticks, end: Ticks, price: real, cap: int)
    requires start < end && end == Date(end) && cap >= 0
    ensures IntervalIncome(start, end, price, cap)
         == FirstDayCharge(start, price, cap) + DaysBetween(start, end) as real * FullDayCharge(price, cap)
  {
    SameDate(start, end);
    assert Date(start) != Date(end);
    SeveralDatesProduct(start, end, price, cap);
  }

  /** The timestamp `hour:minute` on day number `day`. */
  function At(day: nat, hour: nat, minute: nat): Ticks
  {
    day * TicksPerDay + (hour * 60 + minute) * TicksPerMinute
  }

  lemma DayOfAt(day: nat, hour: nat, minute: nat)
    requires hour * 60 + minute < MinutesPerDay
    ensures DayNumber(At(day, hour, minute)) == day
    ensures Date(At(day, hour, minute)) == day * TicksPerDay
  {
  }

  /** The single-date rentals of the service's tests, on any day, with a cap of 20. */
  lemma SameDateExamples(d: nat)
    ensures IntervalIncome(At(d, 12, 0), At(d, 13, 0), 0.1, 20) == 6.0
    ensures IntervalIncome(At(d, 12, 0), At(d, 14, 0), 0.2, 20) == 20.0
    ensures IntervalIncome(At(d, 13, 0), At(d, 13, 10), 0.3, 20) == 3.0
    ensures IntervalIncome(At(d, 12, 0), At(d, 12, 20), 0.5, 20) == 10.0
    ensures IntervalIncome(At(d, 0, 0), At(d, 0, 10), 10.0, 20) == 20.0
    ensures IntervalIncome(At(d, 11, 50), At(d, 12, 0), 1.0, 20) == 10.0
    ensures IntervalIncome(At(d, 1, 0), At(d, 2, 0), 0.5, 20) == 20.0
  {
    DayOfAt(d, 12, 0); DayOfAt(d, 13, 0); DayOfAt(d, 14, 0); DayOfAt(d, 13, 10);
    DayOfAt(d, 12, 20); DayOfAt(d, 0, 0); DayOfAt(d, 0, 10); DayOfAt(d, 11, 50);
    DayOfAt(d, 1, 0); DayOfAt(d, 2, 0);
  }

  /** Rentals across midnight, with a cap of 20: 23:00 to 00:00 bills only
      the capped first hour; 23:00 to 01:00 bills two capped hours; 23:00 to
      01:00 two days later adds one capped whole day. */
  lemma SeveralDateExamples(d: nat)
    ensures IntervalIncome(At(d, 23, 0), At(d + 1, 0, 0), 0.4, 20) == 20.0
    ensures IntervalIncome(At(d, 23, 0), At(d + 1, 1, 0), 0.5, 20) == 40.0
    ensures IntervalIncome(At(d, 23, 0), At(d + 2, 1, 0), 0.01, 20) == 0.6 + 0.6 + 14.4
  {
    DayOfAt(d, 23, 0); DayOfAt(d + 1, 0, 0); DayOfAt(d + 1, 1, 0); DayOfAt(d + 2, 1, 0);
  }
}
