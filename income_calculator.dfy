/** The price of one rental interval. The interval is cut at every midnight;
    the share that falls on one calendar day is billed at the per-minute
    price but never more than the daily cap, and the day shares are added.
    The cap (`MaxRentCostPerDay` in the application's settings) is a
    parameter here. */
module IncomeCalculator {
  import opened Time

  /** An amount limited to the daily cap. */
  function CappedAt(amount: real, cap: int): (r: real)
    ensures r <= amount && r <= cap as real
    ensures r == amount || r == cap as real
  {
    if amount > cap as real then cap as real else amount
  }

  /** The number of whole calendar days strictly between the dates of
      `start` and `end`; negative when the end's date precedes the start's. */
  function DaysBetween(start: Ticks, end: Ticks): int
  {
    DayNumber(end) - DayNumber(start) - 1
  }

  /** The minutes from `start` to the next midnight: more than none, at most a day. */
  function FirstDayMinutes(start: Ticks): (m: real)
    ensures 0.0 < m <= MinutesPerDay as real
  {
    TotalMinutes(Date(start) + TicksPerDay - start)
  }

  /** The minutes from the last midnight to `end`: less than a day. */
  function LastDayMinutes(end: Ticks): (m: real)
    ensures 0.0 <= m < MinutesPerDay as real
  {
    TotalMinutes(end - Date(end))
  }

  /** The capped charge for the part of the first day from `start` to midnight. */
  function FirstDayCharge(start: Ticks, price: real, cap: int): (r: real)
    ensures r <= FirstDayMinutes(start) * price && r <= cap as real
  {
    CappedAt(FirstDayMinutes(start) * price, cap)
  }

  /** The capped charge for the part of the last day from midnight to `end`. */
  function LastDayCharge(end: Ticks, price: real, cap: int): (r: real)
    ensures r <= LastDayMinutes(end) * price && r <= cap as real
  {
    CappedAt(LastDayMinutes(end) * price, cap)
  }

  /** The capped charge for one whole day of 1440 minutes. */
  function FullDayCharge(price: real, cap: int): (r: real)
    ensures r <= MinutesPerDay as real * price && r <= cap as real
  {
    CappedAt(MinutesPerDay as real * price, cap)
  }

  /** The capped charge for at most a day's minutes: not negative at a
      non-negative price and cap, and uncapped when a whole day at the price
      stays within the cap. */
  lemma DayPart(m: real, price: real, cap: int)
    requires 0.0 <= m <= MinutesPerDay as real
    ensures price >= 0.0 && cap >= 0 ==> CappedAt(m * price, cap) >= 0.0
    ensures price >= 0.0 && MinutesPerDay as real * price <= cap as real ==> CappedAt(m * price, cap) == m * price
  {
    if price >= 0.0 {
      assert MinutesPerDay as real * price - m * price == (MinutesPerDay as real - m) * price;
    }
  }

  /** The charges of `n` whole days, one capped full-day charge each. */
  function FullDaysCharge(n: nat, price: real, cap: int): real
  {
    if n == 0 then 0.0 else FullDaysCharge(n - 1, price, cap) + FullDayCharge(price, cap)
  }

  /** The whole days cost the count of days times the capped full-day charge. */
  lemma {:induction false} FullDaysIsProduct(n: nat, price: real, cap: int)
    ensures FullDaysCharge(n, price, cap) == n as real * FullDayCharge(price, cap)
  {
    if n > 0 {
      FullDaysIsProduct(n - 1, price, cap);
      var full := FullDayCharge(price, cap);
      assert n as real * full == (n - 1) as real * full + full;
    }
  }

  /** The number of loop rounds: the days between, or none when the end's
      date does not come at least two days after the start's. */
  function WholeDays(start: Ticks, end: Ticks): (n: nat)
    ensures n == 0 || n == DaysBetween(start, end)
    ensures DaysBetween(start, end) >= 0 ==> n == DaysBetween(start, end)
  {
    if DaysBetween(start, end) > 0 then DaysBetween(start, end) else 0
  }

  /** The income of one interval in closed form: one capped charge when both
      ends share a date; otherwise the capped first day, the capped last day
      and one capped full-day charge for each day in between. */
  function IntervalIncome(start: Ticks, end: Ticks, price: real, cap: int): real
  {
    if Date(start) == Date(end) then
      CappedAt(TotalMinutes(end - start) * price, cap)
    else
      FirstDayCharge(start, price, cap) + LastDayCharge(end, price, cap)
      + FullDaysCharge(WholeDays(start, end), price, cap)
  }

  /** `IncomeCalculator.GetIncome`: accumulates the first-day and last-day
      charges and then one full-day charge per loop round, and returns the
      closed form above. */
  method GetIncome(startTime: Ticks, endTime: Ticks, pricePerMinute: real, maxRentCostPerDay: int)
    returns (income: real)
    ensures income == IntervalIncome(startTime, endTime, pricePerMinute, maxRentCostPerDay)
  {
    var cap := maxRentCostPerDay as real;
    income := 0.0;
    var daysBetween := DayNumber(endTime) - DayNumber(startTime) - 1;
    if Date(startTime) == Date(endTime) {
      income := TotalMinutes(endTime - startTime) * pricePerMinute;
      income := if income > cap then cap else income;
      return;
    }

    var firstDayIncome := FirstDayMinutes(startTime) * pricePerMinute;
    var lastDayIncome := LastDayMinutes(endTime) * pricePerMinute;
    income := income + if firstDayIncome > cap then cap else firstDayIncome;
    income := income + if lastDayIncome > cap then cap else lastDayIncome;
    var i := 0;
    while i < daysBetween
      invariant 0 <= i && (i <= daysBetween || i == 0)
      invariant income == FirstDayCharge(startTime, pricePerMinute, maxRentCostPerDay)
                          + LastDayCharge(endTime, pricePerMinute, maxRentCostPerDay)
                          + FullDaysCharge(i, pricePerMinute, maxRentCostPerDay)
    {
      var incomePerDay := MinutesPerDay as real * pricePerMinute;
      income := income + if incomePerDay > cap then cap else incomePerDay;
      i := i + 1;
    }
  }
}
