/** Monetary amounts: an int64 number of the currency's smallest units. */
module Amounts {
  import opened Prelude

  datatype Currency = BTC | EUR | USD | BRL | GBP

  datatype Money = Money(amount: int64, currency: Currency) {

    /** The part of this amount that is denominated in `c`. */
    function In(c: Currency): int64 {
      if currency == c then amount else 0
    }

    function Neg(): Money {
      Money(Wrap(0 - amount), currency)
    }

    /** Go panics when currencies differ. */
    function Add(b: Money): Money
      requires currency == b.currency
    {
      Money(Wrap(amount + b.amount), currency)
    }

    function Sub(b: Money): Money
      requires currency == b.currency
    {
      Money(Wrap(amount - b.amount), currency)
    }
  }

  function Zero(c: Currency): Money {
    Money(0, c)
  }
}
