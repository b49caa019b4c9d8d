/** The success-or-errors value that the rental operations return. */
module ServiceResults {
  import opened Optional
  import opened Models

  /** The total length of a list of strings. */
  function TotalLength(parts: seq<string>): nat
  {
    if parts == [] then 0 else |parts[0]| + TotalLength(parts[1..])
  }

  /** `string.Join`: the parts in order, with `separator` between each two. */
  function Join(parts: seq<string>, separator: string): (r: string)
    ensures parts == [] ==> r == ""
    ensures |parts| == 1 ==> r == parts[0]
    ensures parts != [] ==> parts[0] <= r
    ensures parts != [] ==> |r| == TotalLength(parts) + (|parts| - 1) * |separator|
  {
    if parts == [] then ""
    else if |parts| == 1 then parts[0]
    else parts[0] + separator + Join(parts[1..], separator)
  }

  /** Joining one more part adds the separator and that part at the end. */
  lemma {:induction false} JoinSnoc(parts: seq<string>, separator: string, last: string)
    requires parts != []
    ensures Join(parts + [last], separator) == Join(parts, separator) + separator + last
  {
    if |parts| > 1 {
      assert (parts + [last])[1..] == parts[1..] + [last];
      JoinSnoc(parts[1..], separator, last);
    }
  }

  /** The outcome of a service call: whether it succeeded, the entity it
      produced (a rental period here) and the error messages collected. */
  class ServiceResult {
    const success: bool
    var entity: Option<RentalPeriod>
    var errors: seq<string>

    /** A result with the given outcome, no entity and no errors yet. */
    constructor(success: bool)
      ensures this.success == success
      ensures entity == None && errors == []
    {
      this.success := success;
      entity := None;
      errors := [];
    }

    /** The error messages separated by ", ". */
    function FormattedErrors(): string
      reads this
    {
      Join(errors, ", ")
    }

    /** Records the entity and returns this same result. */
    method SetEntity(entity: RentalPeriod) returns (r: ServiceResult)
      modifies this
      ensures r == this
      ensures this.entity == Some(entity)
      ensures errors == old(errors)
    {
      this.entity := Some(entity);
      r := this;
    }

    /** Appends one error message and returns this same result. */
    method AddError(error: string) returns (r: ServiceResult)
      modifies this
      ensures r == this
      ensures errors == old(errors) + [error]
      ensures entity == old(entity)
      ensures FormattedErrors() ==
        if old(errors) == [] then error else old(FormattedErrors()) + ", " + error
    {
      if errors != [] {
        JoinSnoc(errors, ", ", error);
      }
      errors := errors + [error];
      r := this;
    }
  }
}
