/** Client runs of the rental service, in the shape of the service's own
    tests: what a caller can conclude from the contracts of `StartRent` and
    `EndRent` alone. */
module RentalScenarios {
  import opened Optional
  import opened Time
  import opened Models
  import opened ServiceResults
  import opened RentalServices
  import RentalIncome
  import opened IncomeCalculator

  /** Starting the rental of an available scooter marks it rented and
      records an open period at its price; a second start is refused. */
  method StartRentScenario(start: Ticks)
  {
    var service := new RentalService([Scooter("abc", 10.0, false)], []);
    var started := service.StartRent("abc", start);
    assert started.success && started.entity == Some(RentalPeriod("abc", start, 10.0, None));
    assert service.scooters == [Scooter("abc", 10.0, true)];
    assert service.periods == [RentalPeriod("abc", start, 10.0, None)];

    var again := service.StartRent("abc", start);
    assert !again.success && again.errors == [ScooterAlreadyRented("abc")];
    var unknown := service.StartRent("xyz", start);
    assert !unknown.success && unknown.errors == [ScooterNotFound("xyz")];
  }

  /** Ending an open rental: at its start time it is refused; later it
      closes the period at exactly that time and frees the scooter. */
  method EndRentScenario(start: Ticks, end: Ticks, cap: int, yearOf: Ticks -> int)
    requires start < end
  {
    var service := new RentalService([Scooter("abc", 10.0, true)], [RentalPeriod("abc", start, 10.0, None)]);
    var early := service.EndRent("abc", start);
    assert !early.success && early.errors == [InvalidEndTime(start, start)];

    var ended := service.EndRent("abc", end);
    assert ended.success && ended.entity == Some(RentalPeriod("abc", start, 10.0, Some(end)));
    assert service.scooters == [Scooter("abc", 10.0, false)];
    assert service.periods == [RentalPeriod("abc", start, 10.0, Some(end))];

    var again := service.EndRent("abc", end);
    assert !again.success && again.errors == [ScooterNotRented("abc")];

    RentalIncome.GetIncomeOfOnePeriod(service.periods[0], None, false, None, cap, yearOf);
    assert RentalIncome.GetIncome(service.periods, None, false, None, cap, yearOf)
        == IntervalIncome(start, end, 10.0, cap);
  }

  /** A scooter marked rented without an open period is reported, not repaired. */
  method MissingPeriodScenario(time: Ticks)
  {
    var service := new RentalService([Scooter("abc", 10.0, true)], []);
    var result := service.EndRent("abc", time);
    assert !result.success && result.errors == [MissingRentalPeriod];
    assert service.scooters == [Scooter("abc", 10.0, true)] && service.periods == [];
  }
}
