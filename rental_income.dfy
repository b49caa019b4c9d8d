/** `RentalService.GetIncome`: the income of the rental periods in the store,
    from the completed rentals and, on request, from the still-open ones
    priced up to the current time. */
module RentalIncome {
  import opened Optional
  import opened Time
  import opened Models
  import opened IncomeCalculator
  import opened RentalServices
  import Multisets

  /** Which periods a sum runs over: the completed ones (ended in `year`,
      when a year is given), or the open ones priced up to `now` (started in
      `year` and in the year of `now`, when a year is given). */
  datatype Selection =
    | Completed(year: Option<int>)
    | Incomplete(year: Option<int>, now: Ticks)

  /** The filter of one of the two queries. `yearOf` gives a timestamp's
      calendar year. */
  predicate Selects(selection: Selection, p: RentalPeriod, yearOf: Ticks -> int)
  {
    match selection
    case Completed(year) =>
      p.endTime.Some? && (year.None? || yearOf(p.endTime.value) == year.value)
    case Incomplete(year, now) =>
      p.endTime.None?
      && (year.None? || (yearOf(p.startTime) == year.value && yearOf(p.startTime) == yearOf(now)))
  }

  /** What one period adds to the sum: the calculator over its interval,
      which ends at its end time or, for an open period, at `now`. */
  function Charge(selection: Selection, p: RentalPeriod, cap: int): real
  {
    match selection
    case Completed(_) =>
      if p.endTime.Some? then IntervalIncome(p.startTime, p.endTime.value, p.pricePerMinute, cap) else 0.0
    case Incomplete(_, now) =>
      IntervalIncome(p.startTime, now, p.pricePerMinute, cap)
  }

  /** The sum of the charges of the selected periods. */
  function SumOver(periods: seq<RentalPeriod>, selection: Selection, cap: int, yearOf: Ticks -> int): real
  {
    if periods == [] then 0.0
    else
      (if Selects(selection, periods[0], yearOf) then Charge(selection, periods[0], cap) else 0.0)
      + SumOver(periods[1..], selection, cap, yearOf)
  }

  /** The service's income report. `currentTime` must be given whenever
      open rentals are included. */
  function GetIncome(periods: seq<RentalPeriod>, year: Option<int>, includeIncompleteRentals: bool,
                     currentTime: Option<Ticks>, cap: int, yearOf: Ticks -> int): (income: real)
    requires includeIncompleteRentals ==> currentTime.Some?
    ensures periods == [] ==> income == 0.0
  {
    var completedRentals := SumOver(periods, Completed(year), cap, yearOf);
    if !includeIncompleteRentals then completedRentals
    else completedRentals + SumOver(periods, Incomplete(year, currentTime.value), cap, yearOf)
  }

  lemma {:induction false} SumOverAppend(a: seq<RentalPeriod>, b: seq<RentalPeriod>, selection: Selection,
                                         cap: int, yearOf: Ticks -> int)
    ensures SumOver(a + b, selection, cap, yearOf)
         == SumOver(a, selection, cap, yearOf) + SumOver(b, selection, cap, yearOf)
  {
    if a != [] {
      assert (a + b)[1..] == a[1..] + b;
      SumOverAppend(a[1..], b, selection, cap, yearOf);
    } else {
      assert a + b == b;
    }
  }

  /** The sum does not depend on the order in which the store lists the periods. */
  lemma {:induction false} SumOverPermutation(a: seq<RentalPeriod>, b: seq<RentalPeriod>, selection: Selection,
                                              cap: int, yearOf: Ticks -> int)
    requires multiset(a) == multiset(b)
    ensures SumOver(a, selection, cap, yearOf) == SumOver(b, selection, cap, yearOf)
  {
    if a == [] {
      assert |b| == |multiset(b)| == 0;
    } else {
      var x := a[0];
      assert x in multiset(b);
      var j :| 0 <= j < |b| && b[j] == x;
      Multisets.RemoveOne(a, b, j);
      SumOverPermutation(a[1..], b[..j] + b[j + 1..], selection, cap, yearOf);
      assert b == b[..j] + [x] + b[j + 1..];
      SumOverAppend(b[..j] + [x], b[j + 1..], selection, cap, yearOf);
      SumOverAppend(b[..j], [x], selection, cap, yearOf);
      SumOverAppend(b[..j], b[j + 1..], selection, cap, yearOf);
      SumOverOne(x, selection, cap, yearOf);
    }
  }

  /** Replacing one period changes the sum by the difference of the two periods' parts. */
  lemma SumOverUpdate(periods: seq<RentalPeriod>, j: nat, p: RentalPeriod, selection: Selection,
                      cap: int, yearOf: Ticks -> int)
    requires j < |periods|
    ensures SumOver(periods[j := p], selection, cap, yearOf)
         == SumOver(periods, selection, cap, yearOf)
            - SumOver([periods[j]], selection, cap, yearOf) + SumOver([p], selection, cap, yearOf)
  {
    assert periods == periods[..j] + [periods[j]] + periods[j + 1..];
    assert periods[j := p] == periods[..j] + [p] + periods[j + 1..];
    SumOverAppend(periods[..j] + [periods[j]], periods[j + 1..], selection, cap, yearOf);
    SumOverAppend(periods[..j], [periods[j]], selection, cap, yearOf);
    SumOverAppend(periods[..j] + [p], periods[j + 1..], selection, cap, yearOf);
    SumOverAppend(periods[..j], [p], selection, cap, yearOf);
  }

  /** What a single period contributes to the report: its whole interval
      when it is complete and in the year asked for; its interval up to the
      current time when it is open, open rentals are included and, if a year
      is asked for, it started in that year and that is also the current
      year; nothing otherwise. */
  lemma GetIncomeOfOnePeriod(p: RentalPeriod, year: Option<int>, includeIncompleteRentals: bool,
                             currentTime: Option<Ticks>, cap: int, yearOf: Ticks -> int)
    requires includeIncompleteRentals ==> currentTime.Some?
    ensures GetIncome([p], year, includeIncompleteRentals, currentTime, cap, yearOf)
         == if p.endTime.Some? then
              if year.None? || yearOf(p.endTime.value) == year.value
              then IntervalIncome(p.startTime, p.endTime.value, p.pricePerMinute, cap)
              else 0.0
            else if includeIncompleteRentals
                    && (year.None? || yearOf(p.startTime) == year.value == yearOf(currentTime.value))
            then IntervalIncome(p.startTime, currentTime.value, p.pricePerMinute, cap)
            else 0.0
  {
    SumOverOne(p, Completed(year), cap, yearOf);
    if includeIncompleteRentals {
      SumOverOne(p, Incomplete(year, currentTime.value), cap, yearOf);
    }
  }

  lemma SumOverOne(p: RentalPeriod, selection: Selection, cap: int, yearOf: Ticks -> int)
    ensures SumOver([p], selection, cap, yearOf)
         == if Selects(selection, p, yearOf) then Charge(selection, p, cap) else 0.0
  {
    assert [p][1..] == [];
  }

  /** The report over two parts of the store is the sum of the reports over each. */
  lemma GetIncomeAppend(a: seq<RentalPeriod>, b: seq<RentalPeriod>, year: Option<int>,
                        includeIncompleteRentals: bool, currentTime: Option<Ticks>, cap: int, yearOf: Ticks -> int)
    requires includeIncompleteRentals ==> currentTime.Some?
    ensures GetIncome(a + b, year, includeIncompleteRentals, currentTime, cap, yearOf)
         == GetIncome(a, year, includeIncompleteRentals, currentTime, cap, yearOf)
            + GetIncome(b, year, includeIncompleteRentals, currentTime, cap, yearOf)
  {
    SumOverAppend(a, b, Completed(year), cap, yearOf);
    if includeIncompleteRentals {
      SumOverAppend(a, b, Incomplete(year, currentTime.value), cap, yearOf);
    }
  }

  /** The report does not depend on the order of the periods in the store. */
  lemma GetIncomeOrderIndependent(a: seq<RentalPeriod>, b: seq<RentalPeriod>, year: Option<int>,
                                  includeIncompleteRentals: bool, currentTime: Option<Ticks>, cap: int,
                                  yearOf: Ticks -> int)
    requires multiset(a) == multiset(b)
    requires includeIncompleteRentals ==> currentTime.Some?
    ensures GetIncome(a, year, includeIncompleteRentals, currentTime, cap, yearOf)
         == GetIncome(b, year, includeIncompleteRentals, currentTime, cap, yearOf)
  {
    SumOverPermutation(a, b, Completed(year), cap, yearOf);
    if includeIncompleteRentals {
      SumOverPermutation(a, b, Incomplete(year, currentTime.value), cap, yearOf);
    }
  }

  /** Starting a rental adds an open period, which changes no report of completed rentals. */
  lemma StartRentKeepsCompletedIncome(periods: seq<RentalPeriod>, scooter: Scooter, time: Ticks,
                                      year: Option<int>, cap: int, yearOf: Ticks -> int)
    ensures GetIncome(periods + [Opened(scooter, time)], year, false, None, cap, yearOf)
         == GetIncome(periods, year, false, None, cap, yearOf)
  {
    GetIncomeAppend(periods, [Opened(scooter, time)], year, false, None, cap, yearOf);
    GetIncomeOfOnePeriod(Opened(scooter, time), year, false, None, cap, yearOf);
  }

  /** Ending a rental at `time` adds the calculator's price of its interval
      to the report of completed rentals (of every year, or of the year in
      which `time` falls). */
  lemma EndRentAddsItsIncome(periods: seq<RentalPeriod>, j: nat, time: Ticks,
                             year: Option<int>, cap: int, yearOf: Ticks -> int)
    requires j < |periods| && periods[j].endTime.None?
    ensures GetIncome(periods[j := Closed(periods[j], time)], year, false, None, cap, yearOf)
         == GetIncome(periods, year, false, None, cap, yearOf)
            + if year.None? || yearOf(time) == year.value
              then IntervalIncome(periods[j].startTime, time, periods[j].pricePerMinute, cap)
              else 0.0
  {
    SumOverUpdate(periods, j, Closed(periods[j], time), Completed(year), cap, yearOf);
    GetIncomeOfOnePeriod(periods[j], year, false, None, cap, yearOf);
    GetIncomeOfOnePeriod(Closed(periods[j], time), year, false, None, cap, yearOf);
  }
}
