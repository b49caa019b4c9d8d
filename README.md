# Scooter rental: billing and rental lifecycle in Dafny

This project models the core of a scooter-rental service.

- **The income calculator** prices one rental interval. It cuts the interval at every midnight and bills each calendar day's share at the per-minute price. No day's share may exceed the daily cap (`MaxRentCostPerDay`).
- **The rental service** keeps a store of scooters and rental periods.
  - `StartRent` moves a scooter from available to rented and opens a period.
  - `EndRent` moves it back and closes the period.
  - `GetIncome` sums the calculator over the completed periods. On request it also adds the still-open periods, priced up to the current time, and it can restrict both sums to one year.
- **`ServiceResult`** is the success-or-errors value both transitions return.
- **Two validators** check a scooter's id and price.

Modelling choices:

- A timestamp is a `DateTime` tick count (`Time.Ticks`, 100 ns units).
  - `Date` truncates it to a multiple of 864 000 000 000 ticks, which is midnight.
  - `TotalMinutes` divides a span by 600 000 000 exactly, as a `real`.
- Money (`decimal`) is a `real`.
- The daily cap is a parameter of the calculator.
- The calendar year of a timestamp is a function parameter `yearOf` of the report.
- The store is the class `RentalService`. It holds the sequences `scooters` and `periods`.
  - A period refers to its scooter by id, and ids are unique because they are the store's key.
  - `FirstOrDefault` is "first match in the sequence" (`FirstWhere`).
  - Saving appends a new period and rewrites an updated one in place.
- The class `ServiceResult` has a constant `success`, an `entity` field and an `errors` list. `AddError` and `SetEntity` update these in place and return the same object.
- Consistency of the store is `Consistent`:
  - scooter ids are unique;
  - a rented scooter has exactly one open period, and an available scooter has none;
  - every closed period ends after it starts.

  Both transitions preserve it.
- `GetIncome` is modelled as written, including one behaviour that may surprise. When a year is given, an open rental counts only if it started in that year and that year is also the current year. `GetIncomeOfOnePeriod` pins this down.

## Model

| member | source | states |
|---|---|---|
| `IncomeCalculator.GetIncome` | scooter-rental.Core/Calculators/IncomeCalculator.cs:7-32 | The imperative calculator returns the closed form. On a single date this is the capped minutes × price. Otherwise it is the capped first day, plus the capped last day, plus one capped 1440-minute charge per whole day between the dates. The loop's invariant counts the full-day charges added so far. |
| `IncomeCalculator.FirstDayMinutes` | scooter-rental.Core/Calculators/IncomeCalculator.cs:20 | The first day's part, from the start to the next midnight, lasts more than 0 and at most 1440 minutes. |
| `IncomeCalculator.LastDayMinutes` | scooter-rental.Core/Calculators/IncomeCalculator.cs:21 | The last day's part, from midnight to the end, lasts at least 0 and less than 1440 minutes. |
| `IncomeCalculator.FirstDayCharge` | scooter-rental.Core/Calculators/IncomeCalculator.cs:20-22 | The first day's charge is at most its minutes × price and at most the cap. |
| `IncomeCalculator.LastDayCharge` | scooter-rental.Core/Calculators/IncomeCalculator.cs:21-23 | The last day's charge is at most its minutes × price and at most the cap. |
| `IncomeCalculator.FullDayCharge` | scooter-rental.Core/Calculators/IncomeCalculator.cs:26-28 | A whole day's charge is at most 1440 × price and at most the cap. |
| `IncomeCalculator.DayPart` | scooter-rental.Core/Calculators/IncomeCalculator.cs:16-28 | A part of at most 1440 minutes costs nothing negative when price and cap are not negative. It is not capped when a whole day at the price fits under the cap. |
| `IncomeCalculator.FullDaysIsProduct` | scooter-rental.Core/Calculators/IncomeCalculator.cs:24-29 | The loop's n rounds add n × the capped full-day charge. |
| `IncomeCalculator.CappedAt` | scooter-rental.Core/Calculators/IncomeCalculator.cs:22-23 | A day's charge is its amount or the cap, whichever is smaller. |
| `Time.Date` | scooter-rental.Core/Calculators/IncomeCalculator.cs:13-14 | The date of a timestamp is a midnight, at most one day before the timestamp. |
| `DailyCharges.IntervalIncomeIsPerDayIncome` | scooter-rental.Core/Calculators/IncomeCalculator.cs:13-31 | For a forward interval, the calculator equals an independent rule. That rule charges every calendar day from the start's date to the end's date separately: each day's overlap with the interval, times the price, capped. |
| `DailyCharges.InnerDays` | scooter-rental.Core/Calculators/IncomeCalculator.cs:24-29 | Every day strictly between the two dates is a whole day. So the reference rule charges n inner days exactly what the loop's n rounds add, one min(1440 × price, cap) each. |
| `DailyCharges.SplitMinutes` | scooter-rental.Core/Calculators/IncomeCalculator.cs:20-21 | The first-day minutes, the last-day minutes and 1440 × daysBetween add up to the interval's minutes. |
| `DailyCharges.IncomeAtMostCapPerDate` | scooter-rental.Core/Calculators/IncomeCalculator.cs:14-29 | An interval touching n dates earns at most n × cap. A single-date interval earns at most the cap. |
| `DailyCharges.IncomeAtMostUncapped` | scooter-rental.Core/Calculators/IncomeCalculator.cs:16-28 | Capping never raises the bill above minutes × price. |
| `DailyCharges.IncomeUncappedWhenDayFitsCap` | scooter-rental.Core/Calculators/IncomeCalculator.cs:16-28 | If a whole day at the price stays within the cap and the price is not negative, the bill is exactly minutes × price. |
| `DailyCharges.IncomeNonNegative` | scooter-rental.Core/Calculators/IncomeCalculator.cs:16-28 | With price ≥ 0, cap ≥ 0 and start ≤ end, the bill is ≥ 0. |
| `DailyCharges.SeveralDatesProduct` | scooter-rental.Core/Calculators/IncomeCalculator.cs:20-29 | Over several dates the bill is the capped first day, plus the capped last day, plus daysBetween × min(1440 × price, cap), and daysBetween is not negative. |
| `DailyCharges.EndingAtMidnight` | scooter-rental.Core/Calculators/IncomeCalculator.cs:21-23 | An interval that ends exactly at midnight gets no charge for its last date. It is billed the first day plus the whole days between. |
| `DailyCharges.SameDateExamples` | scooter-rental.Services.Tests/RentalServiceTests.cs:173-347 | With cap 20, on any day: the single-date fixtures give 6, 20, 3, 10 and 20 (one hour at 0.5). The two report tests' rentals give 20 (10 minutes at 10) and 10 (10 minutes at 1). |
| `DailyCharges.SeveralDateExamples` | scooter-rental.Services.Tests/RentalServiceTests.cs:320-340 | With cap 20: 23:00→00:00 at 0.4 gives 20. 23:00→01:00 the next day at 0.5 gives 20 + 20. An interval two dates later adds one capped whole day. |
| `ServiceResults.ServiceResult.constructor` | scooter-rental.Core/Services/ServiceResult.cs:8-12 | A new result has the given success flag, no entity and no errors. The flag is a constant and never changes. |
| `ServiceResults.ServiceResult.SetEntity` | scooter-rental.Core/Services/ServiceResult.cs:21-25 | Sets the entity and returns the same object. The errors are unchanged. |
| `ServiceResults.ServiceResult.AddError` | scooter-rental.Core/Services/ServiceResult.cs:27-31 | Appends the error at the end and returns the same object. The entity is unchanged. The formatted text becomes the error alone, or the old text + ", " + the error. |
| `ServiceResults.Join` | scooter-rental.Core/Services/ServiceResult.cs:19 | Joining no errors gives "". Joining one error gives that error. Otherwise the result starts with the first error, and its length is the errors' lengths plus one separator between each two. |
| `ServiceResults.JoinSnoc` | scooter-rental.Core/Services/ServiceResult.cs:19 | Joining one more error adds the separator and that error at the end. |
| `ScooterValidators.IsValidId` | scooter-rental.Core/Models/ScooterValidators/ScooterIdValidator.cs:7-10 | An id is valid exactly when it is present and has at least one character. `IdValidatorExamples` checks it on the tests' ids. |
| `ScooterValidators.IsValidPricePerMinute` | scooter-rental.Core/Models/ScooterValidators/ScooterPricePerMinuteValidator.cs:7-10 | A price is valid exactly when it is strictly positive, so a valid price is never 0. `PriceValidatorExamples` checks it on the tests' prices. |
| `ScooterValidators.IdValidatorExamples` | scooter-rental.Core/Models/ScooterValidators/ScooterIdValidator.cs:7-10 | "abc" is a valid id. "" and a null id are not. |
| `ScooterValidators.PriceValidatorExamples` | scooter-rental.Core/Models/ScooterValidators/ScooterPricePerMinuteValidator.cs:7-10 | A price of 1 is valid. 0 and −10 are not, so the bound is strict. |
| `RentalServices.FirstWhere` | scooter-rental.Services/RentalService.cs:39 | `FirstOrDefault` returns the first matching position, or nothing when no element matches. |
| `RentalServices.FindScooter` | scooter-rental.Services/RentalService.cs:16 | Returns the first scooter with the id, or none when no scooter has that id. |
| `RentalServices.FindOpenPeriod` | scooter-rental.Services/RentalService.cs:39 | Returns the first period that belongs to the scooter and has no end time, or none when there is no such period. |
| `RentalServices.RentalService.StartRent` | scooter-rental.Services/RentalService.cs:14-30 | An unknown id fails with "Scooter id {id} not found" and changes nothing. A rented scooter fails with "Scooter id {id} already rented" and changes nothing. Otherwise the scooter becomes rented, exactly one open period is appended at time t with the scooter's price, and that period is returned. A failed result's formatted errors are its one message. Consistency is kept. |
| `RentalServices.RentalService.EndRent` | scooter-rental.Services/RentalService.cs:32-54 | The checks run in order: not found, not rented, no open period, time ≤ start (so equal to start is rejected). Each failure returns its message and changes nothing. On success the first open period gets end time t and keeps its start, price and scooter. The scooter becomes available, and the closed period is returned. Consistency is kept. |
| `RentalServices.StartRentKeepsConsistent` | scooter-rental.Services/RentalService.cs:19-29 | Renting an available scooter in a consistent store gives a consistent store. |
| `RentalServices.EndRentKeepsConsistent` | scooter-rental.Services/RentalService.cs:37-53 | Closing a rented scooter's open period at a later time, and freeing the scooter, gives a consistent store. |
| `RentalServices.RentedScooterHasOpenPeriod` | scooter-rental.Services/RentalService.cs:39-42 | In a consistent store, a rented scooter always has an open period, so the missing-period error cannot arise. |
| `RentalIncome.GetIncome` | scooter-rental.Services/RentalService.cs:56-81 | The report is the completed-rental sum, plus the open-rental sum up to the current time when open rentals are included. It needs the current time only in that case. An empty store reports 0. Its value is pinned down period by period by `GetIncomeOfOnePeriod` and `GetIncomeAppend`. |
| `RentalIncome.GetIncomeOfOnePeriod` | scooter-rental.Services/RentalService.cs:58-80 | Gives each period's share of the report. A closed period adds its whole interval when it ended in the year asked for, or when no year is given. An open period adds its interval up to the current time only when open rentals are included. If a year is given, that period must also have started in that year, and that year must be the current year. Otherwise the period adds nothing. |
| `RentalIncome.GetIncomeAppend` | scooter-rental.Services/RentalService.cs:58-80 | The report over two parts of the store is the sum of the two reports. |
| `RentalIncome.GetIncomeOrderIndependent` | scooter-rental.Services/RentalService.cs:60-78 | The report does not depend on the order of the periods. |
| `RentalIncome.SumOverPermutation` | scooter-rental.Services/RentalService.cs:60-61 | A filtered sum over two orderings of the same periods is the same. |
| `RentalIncome.StartRentKeepsCompletedIncome` | scooter-rental.Services/RentalService.cs:24-29 | The open period that a start appends leaves every completed-rental report unchanged. |
| `RentalIncome.EndRentAddsItsIncome` | scooter-rental.Services/RentalService.cs:48-53 | Closing an open period at t adds its calculator price to the completed-rental report. This applies with no year, or with the year in which t falls. |

## Left out

- The cap is read from `appsettings.json` on every call. Here it is the `maxRentCostPerDay` parameter, and file I/O is not modelled.
- Floating point is not modelled. The source converts the `double` `TotalMinutes` to `decimal`, and `decimal` rounds. Minutes and money here are exact reals.
- `DateTime.Year` is the parameter `yearOf` rather than the Gregorian calendar. Timestamps carry no kind or time zone.
- The tick range of `DateTime` has no upper bound here.
- The end-time error text prints timestamps as decimal tick counts. The source formats them in the current culture's date format.
- Period and entity ids generated by the database are not modelled. A period refers to its scooter by id, not by an object reference.
- Persistence (Entity Framework, `SaveChanges`) is not modelled. The source makes two separate commits per transition, and the model applies both updates at once. There are no transactions, locking or concurrency, and the order of a database query is taken to be the sequence order.
- `ServiceResult.Entity` holds any entity in the source. Here it holds a rental period, the only entity these operations put there.
- The HTTP controllers are not modelled.
  - `GetIncome` requires `currentTime` whenever open rentals are included. The controller ensures this. Without it the source throws when a year is given or an open period exists, and otherwise returns the completed sum.
  - The controller also rejects a current year before the report's year. That check is not a requirement here, because `GetIncome` computes a value either way.
- A rental period always names a scooter here. In the source the scooter of a period may be null (the column is nullable, and the service's tests store such periods), so those periods are not representable. `GetIncome` never reads a period's scooter.
- The validators are modelled on the field they read (`id` as an optional string, `pricePerMinute`), not on a whole scooter object.
