/** Money: an int64 number of minor units and a currency code, with checked arithmetic. */
module MoneyModel {
  import opened Prelude

  /** The ISO 4217 table the currency library carries. Every result holds for any table. */
  const IsoCodes: set<string>

  predicate ValidCurrency(code: string) {
    |code| == 3 && (forall c | c in code :: 'A' <= c <= 'Z') && code in IsoCodes
  }

  /** `Money(0, "")` is Go's zero value Money{}; it is not valid. */
  datatype Money = Money(minor: int64, currency: string) {
    predicate Valid() {
      ValidCurrency(currency)
    }

    predicate IsPositive() {
      Valid() && minor > 0
    }

    predicate IsZero() {
      Valid() && minor == 0
    }

    /** The guard is computed in int64, as in the source: the `int64` locals prove it cannot wrap. */
    function Add(n: Money): (r: Result<Money>)
      ensures r.Ok? <==> Valid() && n.Valid() && currency == n.currency && MIN_INT64 <= minor + n.minor <= MAX_INT64
      ensures r.Ok? ==> r.value.minor == minor + n.minor && r.value.currency == currency
      ensures r.Err? && Valid() && n.Valid() && currency == n.currency ==> r.error == Overflow
    {
      if !Valid() || !n.Valid() || currency != n.currency then
        Err(CurrencyMismatch)
      else if (n.minor > 0 && (var limit: int64 := MAX_INT64 - n.minor; minor > limit))
              || (n.minor < 0 && (var limit: int64 := MIN_INT64 - n.minor; minor < limit)) then
        Err(Overflow)
      else
        Ok(Money(minor + n.minor, currency))
    }

    function Sub(n: Money): (r: Result<Money>)
      ensures r.Ok? <==> Valid() && n.Valid() && currency == n.currency && MIN_INT64 <= minor - n.minor <= MAX_INT64
      ensures r.Ok? ==> r.value.minor == minor - n.minor && r.value.currency == currency
      ensures r.Err? && Valid() && n.Valid() && currency == n.currency ==> r.error == Overflow
    {
      if !Valid() || !n.Valid() || currency != n.currency then
        Err(CurrencyMismatch)
      else if (n.minor > 0 && (var limit: int64 := MIN_INT64 + n.minor; minor < limit))
              || (n.minor < 0 && (var limit: int64 := MAX_INT64 + n.minor; minor > limit)) then
        Err(Overflow)
      else
        Ok(Money(minor - n.minor, currency))
    }

    function Negate(): (r: Result<Money>)
      ensures r.Ok? <==> Valid() && minor + MAX_INT64 >= 0
      ensures r.Ok? ==> r.value.minor + minor == 0 && r.value.currency == currency
    {
      if !Valid() then Err(InvalidMoney)
      else if minor == MIN_INT64 then Err(Overflow)
      else Ok(Money(-minor, currency))
    }

    /** The sign of the exact difference, for any two valid amounts of one currency. */
    function Compare(n: Money): (r: Result<int>)
      ensures r.Ok? <==> Valid() && n.Valid() && currency == n.currency
      ensures r.Ok? ==> -1 <= r.value <= 1 && (r.value < 0 <==> minor - n.minor < 0) && (r.value == 0 <==> this == n)
    {
      if !Valid() || !n.Valid() || currency != n.currency then Err(CurrencyMismatch)
      else if minor < n.minor then Ok(-1)
      else if minor > n.minor then Ok(1)
      else Ok(0)
    }
  }

  const NO_MONEY := Money(0, "")

  function MoneyFromMinor(minor: int64, currency: string): (r: Result<Money>)
    ensures r.Ok? <==> ValidCurrency(currency)
    ensures r.Ok? ==> r.value == Money(minor, currency) && r.value.Valid()
  {
    if !ValidCurrency(currency) then Err(InvalidMoney) else Ok(Money(minor, currency))
  }

  /** Adding then subtracting undoes exactly, whenever the sum exists; and the two fail on mirror inputs. */
  lemma AddSubInverse(m: Money, n: Money)
    ensures m.Add(n).Ok? ==> m.Add(n).value.Sub(n) == Ok(m)
    ensures m.Sub(n).Ok? ==> m.Sub(n).value.Add(n) == Ok(m)
    ensures n.minor != MIN_INT64 && n.Valid() ==> (m.Add(n).Ok? <==> m.Sub(n.Negate().value).Ok?)
  {
  }
}
