/** The rental lifecycle over an in-memory store of scooters and rental
    periods: starting a rental (Available to Rented), ending it (Rented to
    Available), and the consistency invariant both transitions keep. */
module RentalServices {
  import opened Optional
  import opened Time
  import opened Models
  import opened ServiceResults

  /** `FirstOrDefault`: the index of the first element that matches, if any. */
  function FirstWhere<T>(s: seq<T>, matches: T -> bool): (r: Option<nat>)
    ensures r.Some? ==> r.value < |s| && matches(s[r.value])
    ensures r.Some? ==> forall j :: 0 <= j < r.value ==> !matches(s[j])
    ensures r.None? ==> forall j :: 0 <= j < |s| ==> !matches(s[j])
  {
    if s == [] then None
    else if matches(s[0]) then Some(0)
    else match FirstWhere(s[1..], matches)
      case None => None
      case Some(k) => Some(k + 1)
  }

  /** The position of the scooter with the given id. */
  function FindScooter(scooters: seq<Scooter>, id: string): (r: Option<nat>)
    ensures r.Some? ==> r.value < |scooters| && scooters[r.value].id == id
    ensures r.Some? ==> forall j :: 0 <= j < r.value ==> scooters[j].id != id
    ensures r.None? ==> forall j :: 0 <= j < |scooters| ==> scooters[j].id != id
  {
    FirstWhere(scooters, (s: Scooter) => s.id == id)
  }

  /** The position of the first open rental period of the scooter `id`. */
  function FindOpenPeriod(periods: seq<RentalPeriod>, id: string): (r: Option<nat>)
    ensures r.Some? ==> r.value < |periods| && IsOpenFor(periods[r.value], id)
    ensures r.Some? ==> forall j :: 0 <= j < r.value ==> !IsOpenFor(periods[j], id)
    ensures r.None? ==> forall j :: 0 <= j < |periods| ==> !IsOpenFor(periods[j], id)
  {
    FirstWhere(periods, (p: RentalPeriod) => IsOpenFor(p, id))
  }

  /** The number of open rental periods of the scooter `id`. */
  function OpenCount(periods: seq<RentalPeriod>, id: string): nat
  {
    if periods == [] then 0
    else (if IsOpenFor(periods[0], id) then 1 else 0) + OpenCount(periods[1..], id)
  }

  // ---------------------------------------------------------------- messages

  function ScooterNotFound(id: string): string
  {
    "Scooter id " + id + " not found"
  }

  function ScooterAlreadyRented(id: string): string
  {
    "Scooter id " + id + " already rented"
  }

  function ScooterNotRented(id: string): string
  {
    "Scooter id " + id + " not rented"
  }

  const MissingRentalPeriod: string :=
    "A rented scooter was found but a matching rental period does not exist"

  /** A timestamp as text: its tick count in decimal. */
  function TimeText(t: Ticks): string
  {
    if t < 10 then ["0123456789"[t]] else TimeText(t / 10) + ["0123456789"[t % 10]]
  }

  function InvalidEndTime(startTime: Ticks, time: Ticks): string
  {
    "Rental period was started at " + TimeText(startTime) + " and cannot end at " + TimeText(time)
  }

  // -------------------------------------------------------------- invariant

  /** Scooter ids are unique, as the store's primary key makes them. */
  ghost predicate UniqueIds(scooters: seq<Scooter>)
  {
    forall i, j :: 0 <= i < j < |scooters| ==> scooters[i].id != scooters[j].id
  }

  /** A scooter is rented exactly when it has one open period, and has none otherwise. */
  ghost predicate RentedIffOpen(scooters: seq<Scooter>, periods: seq<RentalPeriod>)
  {
    forall i :: 0 <= i < |scooters| ==>
      OpenCount(periods, scooters[i].id) == if scooters[i].isRented then 1 else 0
  }

  /** Every closed period ends after it started. */
  ghost predicate ClosedAfterStart(periods: seq<RentalPeriod>)
  {
    forall j :: 0 <= j < |periods| && periods[j].endTime.Some? ==>
      periods[j].startTime < periods[j].endTime.value
  }

  ghost predicate Consistent(scooters: seq<Scooter>, periods: seq<RentalPeriod>)
  {
    UniqueIds(scooters) && RentedIffOpen(scooters, periods) && ClosedAfterStart(periods)
  }

  /** The period a successful start of a rental creates. */
  function Opened(scooter: Scooter, time: Ticks): RentalPeriod
  {
    RentalPeriod(scooter.id, time, scooter.pricePerMinute, None)
  }

  /** The period after a successful end of its rental at `time`. */
  function Closed(period: RentalPeriod, time: Ticks): RentalPeriod
  {
    period.(endTime := Some(time))
  }

  lemma {:induction false} OpenCountAppend(periods: seq<RentalPeriod>, p: RentalPeriod, id: string)
    ensures OpenCount(periods + [p], id) == OpenCount(periods, id) + if IsOpenFor(p, id) then 1 else 0
  {
    if periods != [] {
      assert (periods + [p])[1..] == periods[1..] + [p];
      OpenCountAppend(periods[1..], p, id);
    }
  }

  lemma {:induction false} OpenCountUpdate(periods: seq<RentalPeriod>, j: nat, p: RentalPeriod, id: string)
    requires j < |periods|
    ensures OpenCount(periods[j := p], id)
         == OpenCount(periods, id) - (if IsOpenFor(periods[j], id) then 1 else 0)
            + (if IsOpenFor(p, id) then 1 else 0)
  {
    if j > 0 {
      assert periods[j := p][1..] == periods[1..][j - 1 := p];
      OpenCountUpdate(periods[1..], j - 1, p, id);
    } else {
      assert periods[j := p][1..] == periods[1..];
    }
  }

  lemma {:induction false} OpenCountPositive(periods: seq<RentalPeriod>, j: nat, id: string)
    requires j < |periods| && IsOpenFor(periods[j], id)
    ensures OpenCount(periods, id) > 0
  {
    if j > 0 {
      OpenCountPositive(periods[1..], j - 1, id);
    }
  }

  /** In a consistent store a rented scooter always has an open period, so
      the missing-period error of `EndRent` cannot arise. */
  lemma RentedScooterHasOpenPeriod(scooters: seq<Scooter>, periods: seq<RentalPeriod>, k: nat)
    requires Consistent(scooters, periods)
    requires k < |scooters| && scooters[k].isRented
    ensures FindOpenPeriod(periods, scooters[k].id).Some?
  {
    var r := FindOpenPeriod(periods, scooters[k].id);
    if r.None? {
      OpenCountNone(periods, scooters[k].id);
    }
  }

  lemma {:induction false} OpenCountNone(periods: seq<RentalPeriod>, id: string)
    requires forall j :: 0 <= j < |periods| ==> !IsOpenFor(periods[j], id)
    ensures OpenCount(periods, id) == 0
  {
    if periods != [] {
      OpenCountNone(periods[1..], id);
    }
  }

  /** Starting the rental of an available scooter keeps the store consistent. */
  lemma StartRentKeepsConsistent(scooters: seq<Scooter>, periods: seq<RentalPeriod>, k: nat, time: Ticks)
    requires Consistent(scooters, periods)
    requires k < |scooters| && !scooters[k].isRented
    ensures Consistent(scooters[k := scooters[k].(isRented := true)], periods + [Opened(scooters[k], time)])
  {
    var scooters', periods' := scooters[k := scooters[k].(isRented := true)], periods + [Opened(scooters[k], time)];
    forall i | 0 <= i < |scooters'|
      ensures OpenCount(periods', scooters'[i].id) == if scooters'[i].isRented then 1 else 0
    {
      OpenCountAppend(periods, Opened(scooters[k], time), scooters[i].id);
    }
  }

  /** Ending the rental of a rented scooter through its open period, at a
      time after the period started, keeps the store consistent. */
  lemma EndRentKeepsConsistent(scooters: seq<Scooter>, periods: seq<RentalPeriod>, k: nat, j: nat, time: Ticks)
    requires Consistent(scooters, periods)
    requires k < |scooters| && scooters[k].isRented
    requires j < |periods| && IsOpenFor(periods[j], scooters[k].id)
    requires periods[j].startTime < time
    ensures Consistent(scooters[k := scooters[k].(isRented := false)], periods[j := Closed(periods[j], time)])
  {
    var scooters', periods' := scooters[k := scooters[k].(isRented := false)], periods[j := Closed(periods[j], time)];
    forall i | 0 <= i < |scooters'|
      ensures OpenCount(periods', scooters'[i].id) == if scooters'[i].isRented then 1 else 0
    {
      OpenCountUpdate(periods, j, Closed(periods[j], time), scooters[i].id);
    }
  }

  // ------------------------------------------------------------------ store

  /** The rental service over the store's scooters and rental periods. */
  class RentalService {
    var scooters: seq<Scooter>
    var periods: seq<RentalPeriod>

    constructor(scooters: seq<Scooter>, periods: seq<RentalPeriod>)
      ensures this.scooters == scooters && this.periods == periods
    {
      this.scooters := scooters;
      this.periods := periods;
    }

    /** Starts renting the scooter `id` at `time`. Fails, changing nothing,
        when there is no such scooter or it is already rented; otherwise marks
        it rented and appends an open period at its current price. */
    method StartRent(id: string, time: Ticks) returns (result: ServiceResult)
      modifies this
      ensures fresh(result)
      ensures FindScooter(old(scooters), id).None? ==>
        && !result.success && result.errors == [ScooterNotFound(id)] && result.entity.None?
        && scooters == old(scooters) && periods == old(periods)
      ensures FindScooter(old(scooters), id).Some? ==>
        var k := FindScooter(old(scooters), id).value;
        var scooter := old(scooters)[k];
        if scooter.isRented then
          && !result.success && result.errors == [ScooterAlreadyRented(id)] && result.entity.None?
          && scooters == old(scooters) && periods == old(periods)
        else
          && result.success && result.errors == [] && result.entity == Some(Opened(scooter, time))
          && scooters == old(scooters)[k := scooter.(isRented := true)]
          && periods == old(periods) + [Opened(scooter, time)]
      ensures !result.success ==> result.FormattedErrors() == result.errors[0]
      ensures Consistent(old(scooters), old(periods)) ==> Consistent(scooters, periods)
    {
      var found := FindScooter(scooters, id);
      if found.None? {
        result := new ServiceResult(false);
        result := result.AddError(ScooterNotFound(id));
        return;
      }
      var k := found.value;
      var scooter := scooters[k];
      if scooter.isRented {
        result := new ServiceResult(false);
        result := result.AddError(ScooterAlreadyRented(id));
        return;
      }

      if Consistent(scooters, periods) {
        StartRentKeepsConsistent(scooters, periods, k, time);
      }
      scooters := scooters[k := scooter.(isRented := true)];
      var period := Opened(scooter, time);
      periods := periods + [period];
      result := new ServiceResult(true);
      result := result.SetEntity(period);
    }

    /** Ends the rental of the scooter `id` at `time`. Fails, changing
        nothing, when there is no such scooter, it is not rented, it has no
        open period, or `time` is not after that period's start (checked in
        this order); otherwise closes the scooter's first open period at
        `time` and marks the scooter available. */
    method EndRent(id: string, time: Ticks) returns (result: ServiceResult)
      modifies this
      ensures fresh(result)
      ensures FindScooter(old(scooters), id).None? ==>
        && !result.success && result.errors == [ScooterNotFound(id)] && result.entity.None?
        && scooters == old(scooters) && periods == old(periods)
      ensures FindScooter(old(scooters), id).Some? && !old(scooters)[FindScooter(old(scooters), id).value].isRented ==>
        && !result.success && result.errors == [ScooterNotRented(id)] && result.entity.None?
        && scooters == old(scooters) && periods == old(periods)
      ensures FindScooter(old(scooters), id).Some? && old(scooters)[FindScooter(old(scooters), id).value].isRented ==>
        var k := FindScooter(old(scooters), id).value;
        match FindOpenPeriod(old(periods), id)
        case None =>
          && !result.success && result.errors == [MissingRentalPeriod] && result.entity.None?
          && scooters == old(scooters) && periods == old(periods)
        case Some(j) =>
          var period := old(periods)[j];
          if time <= period.startTime then
            && !result.success && result.errors == [InvalidEndTime(period.startTime, time)]
            && result.entity.None?
            && scooters == old(scooters) && periods == old(periods)
          else
            && result.success && result.errors == [] && result.entity == Some(Closed(period, time))
            && scooters == old(scooters)[k := old(scooters)[k].(isRented := false)]
            && periods == old(periods)[j := Closed(period, time)]
      ensures !result.success ==> result.FormattedErrors() == result.errors[0]
      ensures Consistent(old(scooters), old(periods)) ==> Consistent(scooters, periods)
    {
      var found := FindScooter(scooters, id);
      if found.None? {
        result := new ServiceResult(false);
        result := result.AddError(ScooterNotFound(id));
        return;
      }
      var k := found.value;
      var scooter := scooters[k];
      if !scooter.isRented {
        result := new ServiceResult(false);
        result := result.AddError(ScooterNotRented(id));
        return;
      }

      var open := FindOpenPeriod(periods, id);
      if open.None? {
        result := new ServiceResult(false);
        result := result.AddError(MissingRentalPeriod);
        return;
      }
      var j := open.value;
      var period := periods[j];
      if time <= period.startTime {
        result := new ServiceResult(false);
        result := result.AddError(InvalidEndTime(period.startTime, time));
        return;
      }

      if Consistent(scooters, periods) {
        EndRentKeepsConsistent(scooters, periods, k, j, time);
      }
      period := Closed(period, time);
      periods := periods[j := period];
      scooters := scooters[k := scooter.(isRented := false)];
      result := new ServiceResult(true);
      result := result.SetEntity(period);
    }
  }
}
