/** The two entities of the rental store. */
module Models {
  import opened Optional
  import opened Time

  /** A scooter: its identity, its current price per minute and whether it is
      rented out right now. */
  datatype Scooter = Scooter(id: string, pricePerMinute: real, isRented: bool)

  /** One rental of one scooter. The scooter is referred to by its id (the
      store's primary key). `pricePerMinute` is the scooter's price when the
      rental started; `endTime` is `None` while the rental is still open. */
  datatype RentalPeriod = RentalPeriod(
    scooterId: string,
    startTime: Ticks,
    pricePerMinute: real,
    endTime: Option<Ticks>)

  /** The period is an open rental of the scooter `id`. */
  predicate IsOpenFor(p: RentalPeriod, id: string)
  {
    p.scooterId == id && p.endTime.None?
  }
}
