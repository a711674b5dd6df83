/** `quantity_from_json`: an amount given as a fixed amount and/or a percentage of the
    balance, at least one of the two being required. */
module Quantities {
  import opened Wrappers
  import opened Text
  import opened Json

  /** `quantity_t`, value-initialised: a field the fragment does not give stays 0. */
  datatype Quantity = Quantity(fixedAmount: real, balancePercentage: real)

  const FIXED_AMOUNT: Bytes := Ascii("fixed_amount")
  const BALANCE_PERCENTAGE: Bytes := Ascii("balance_percentage")

  /** `obj.at(key).get<float>()` inside a `try` that catches only out_of_range: an absent
      member gives None, a present one must convert to a number (type_error otherwise). */
  function OptionalNumber(obj: Value, key: Bytes): Result<Option<real>, Error> {
    match Find(obj, key)
    case None => Success(None)
    case Some(x) =>
      var n :- AsNumber(x, key);
      Success(Some(n))
  }

  /** The value a field of the result must have: the member's number when the fragment has
      the member, the initial 0 when it does not. */
  predicate Copied(obj: Value, key: Bytes, x: real) {
    match Find(obj, key)
    case None => x == 0.0
    case Some(v) => AsNumber(v, key) == Success(x)
  }

  function FromJson(obj: Value): (r: Result<Quantity, Error>)
    ensures r == Failure(QuantityRequired(obj)) <==>
              obj.Object? && Find(obj, FIXED_AMOUNT).None? && Find(obj, BALANCE_PERCENTAGE).None?
    ensures r.Success? <==>
              && obj.Object?
              && (Find(obj, FIXED_AMOUNT).Some? || Find(obj, BALANCE_PERCENTAGE).Some?)
              && (Find(obj, FIXED_AMOUNT).Some? ==> AsNumber(Find(obj, FIXED_AMOUNT).value, FIXED_AMOUNT).Success?)
              && (Find(obj, BALANCE_PERCENTAGE).Some? ==>
                    AsNumber(Find(obj, BALANCE_PERCENTAGE).value, BALANCE_PERCENTAGE).Success?)
    ensures r.Success? ==> Copied(obj, FIXED_AMOUNT, r.value.fixedAmount)
    ensures r.Success? ==> Copied(obj, BALANCE_PERCENTAGE, r.value.balancePercentage)
  {
    if !obj.Object? then
      // `at` on a value that is not an object throws type_error
      Failure(BadField(FIXED_AMOUNT))
    else
      var fixedAmount :- OptionalNumber(obj, FIXED_AMOUNT);
      var balancePercentage :- OptionalNumber(obj, BALANCE_PERCENTAGE);
      if fixedAmount.None? && balancePercentage.None? then
        Failure(QuantityRequired(obj))
      else
        Success(Quantity(fixedAmount.GetOr(0.0), balancePercentage.GetOr(0.0)))
  }

  /** Only `fixed_amount` given: the balance percentage stays 0. */
  lemma FixedAmountOnly(x: real)
    ensures FromJson(Object([(FIXED_AMOUNT, Float(x))])) == Success(Quantity(x, 0.0))
  {
    assert FIXED_AMOUNT != BALANCE_PERCENTAGE by {
      assert |FIXED_AMOUNT| != |BALANCE_PERCENTAGE|;
    }
    var ms := [(FIXED_AMOUNT, Float(x))];
    assert FindIn(ms, BALANCE_PERCENTAGE) == FindIn(ms[1..], BALANCE_PERCENTAGE);
    assert ms[1..] == [];
  }
}
