/** The two checks a scooter must pass before it is stored. Each reads one
    field of the scooter being validated; `None` stands for a null id. */
module ScooterValidators {
  import opened Optional

  /** `ScooterIdValidator.IsValid`: the id is neither null nor empty. */
  predicate IsValidId(id: Option<string>): (valid: bool)
    ensures valid <==> id.Some? && |id.value| > 0
  {
    id.Some? && id.value != ""
  }

  /** `ScooterPricePerMinuteValidator.IsValid`: the price is strictly positive. */
  predicate IsValidPricePerMinute(pricePerMinute: real): (valid: bool)
    ensures valid ==> pricePerMinute != 0.0
    ensures valid <==> 0.0 < pricePerMinute
  {
    pricePerMinute > 0.0
  }

  /** The id validator on the ids its unit tests use. */
  lemma IdValidatorExamples()
    ensures IsValidId(Some("abc"))
    ensures !IsValidId(Some(""))
    ensures !IsValidId(None)
  {
  }

  /** The price validator on the prices its unit tests use: the bound is strict. */
  lemma PriceValidatorExamples()
    ensures IsValidPricePerMinute(1.0)
    ensures !IsValidPricePerMinute(0.0)
    ensures !IsValidPricePerMinute(-10.0)
  {
  }
}
