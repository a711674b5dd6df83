/** `currency_pair_t`: a base currency and a quote currency, both names. */
module Pairs {
  import opened Text

  datatype CurrencyPair = CurrencyPair(base: Bytes, quote: Bytes)
}
