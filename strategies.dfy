/** `Config::strategies`: the trading strategies configured per currency pair. The
    `strategies` section maps a base currency to an object that maps a quote currency to an
    array of strategy specifications `{"name": ..., "params": {...}}`. */
module Strategies {
  import opened Wrappers
  import opened Text
  import opened Json
  import opened Dispatch
  import opened Quantities
  import opened Pairs

  /** The shared data monitor and message channel handed to every strategy; the model keeps
      only their identity. */
  datatype Monitors = Monitors(id: nat)
  datatype Channel = Channel(id: nat)

  /** A constructed strategy, recorded with the arguments it was built from. Periods are
      whole seconds. */
  datatype Strategy =
    | Hodl(monitors: Monitors, chan: Channel)
    | BuyLowAndHodl(monitors: Monitors, chan: Channel, low: real, balancePercentage: real,
                    tradePeriod: int, statsPeriod: int)
    | DollarCostAveraging(monitors: Monitors, chan: Channel, date: Bytes, buy: Quantity)
    | SmallChanges(monitors: Monitors, chan: Channel, buy: Quantity, sell: Quantity)

  /** The strategies built so far for each pair (`ret`). */
  type Catalog = map<CurrencyPair, seq<Strategy>>

  const NAME: Bytes := Ascii("name")
  const PARAMS: Bytes := Ascii("params")
  const LOW: Bytes := Ascii("low")
  const TRADE_PERIOD: Bytes := Ascii("trade_period")
  const STATS_PERIOD: Bytes := Ascii("stats_period")
  const QUOTE: Bytes := Ascii("quote")
  const BASE: Bytes := Ascii("base")
  const BUY: Bytes := Ascii("buy")
  const SELL: Bytes := Ascii("sell")
  const DATE: Bytes := Ascii("date")

  /** The case label each kind of strategy is built under. */
  function CaseOf(s: Strategy): bv32 {
    match s
    case Hodl(_, _) => HODL_CASE
    case BuyLowAndHodl(_, _, _, _, _, _) => BUYLOWANDHODL_CASE
    case DollarCostAveraging(_, _, _, _) => DOLLARCOSTAVERAGING_CASE
    case SmallChanges(_, _, _, _) => SMALLCHANGES_CASE
  }

  predicate IsStrategyCase(h: bv32) {
    h == HODL_CASE || h == BUYLOWANDHODL_CASE || h == DOLLARCOSTAVERAGING_CASE || h == SMALLCHANGES_CASE
  }

  // What a member of the parameters holds, as the conversion the case applies reads it.

  predicate NumberAt(v: Value, key: Bytes, x: real) {
    match Find(v, key)
    case Some(y) => AsNumber(y, key) == Success(x)
    case None => false
  }

  predicate SecondsAt(v: Value, key: Bytes, n: int) {
    match Find(v, key)
    case Some(y) => AsSeconds(y, key) == Success(n)
    case None => false
  }

  predicate StringAt(v: Value, key: Bytes, s: Bytes) {
    Find(v, key) == Some(Str(s))
  }

  /** `key.sub` holds a quantity fragment that gives q. */
  predicate QuantityAt(v: Value, key: Bytes, sub: Bytes, q: Quantity) {
    match Find(v, key)
    case Some(y) => Find(y, sub).Some? && FromJson(Find(y, sub).value) == Success(q)
    case None => false
  }

  /** The BUYLOWANDHODL case given `params`: `low`, `trade_period`, `stats_period` and
      `quote.balance_percentage`, read in that order. */
  function BuyLowAndHodlFrom(params: Value, monitors: Monitors, chan: Channel): (r: Result<Strategy, Error>)
    ensures r.Success? ==>
              && r.value.BuyLowAndHodl? && r.value.monitors == monitors && r.value.chan == chan
              && NumberAt(params, LOW, r.value.low)
              && SecondsAt(params, TRADE_PERIOD, r.value.tradePeriod)
              && SecondsAt(params, STATS_PERIOD, r.value.statsPeriod)
              && Find(params, QUOTE).Some?
              && NumberAt(Find(params, QUOTE).value, BALANCE_PERCENTAGE, r.value.balancePercentage)
    ensures forall low, tradePeriod, statsPeriod, balancePercentage ::
              && NumberAt(params, LOW, low)
              && SecondsAt(params, TRADE_PERIOD, tradePeriod)
              && SecondsAt(params, STATS_PERIOD, statsPeriod)
              && Find(params, QUOTE).Some?
              && NumberAt(Find(params, QUOTE).value, BALANCE_PERCENTAGE, balancePercentage)
              ==> r == Success(BuyLowAndHodl(monitors, chan, low, balancePercentage, tradePeriod, statsPeriod))
  {
    var low :- NumberField(params, LOW);
    var tradePeriod :- SecondsField(params, TRADE_PERIOD);
    var statsPeriod :- SecondsField(params, STATS_PERIOD);
    var quote :- Field(params, QUOTE);
    var balancePercentage :- NumberField(quote, BALANCE_PERCENTAGE);
    Success(BuyLowAndHodl(monitors, chan, low, balancePercentage, tradePeriod, statsPeriod))
  }

  /** The DOLLARCOSTAVERAGING case given `params`: the quantity `buy.quote`, then `date`. */
  function DollarCostAveragingFrom(params: Value, monitors: Monitors, chan: Channel): (r: Result<Strategy, Error>)
    ensures r.Success? ==>
              && r.value.DollarCostAveraging? && r.value.monitors == monitors && r.value.chan == chan
              && QuantityAt(params, BUY, QUOTE, r.value.buy)
              && StringAt(params, DATE, r.value.date)
    ensures forall buy, date ::
              QuantityAt(params, BUY, QUOTE, buy) && StringAt(params, DATE, date) ==>
                r == Success(DollarCostAveraging(monitors, chan, date, buy))
  {
    var buy :- Field(params, BUY);
    var quote :- Field(buy, QUOTE);
    var buyQuantity :- FromJson(quote);
    var date :- StringField(params, DATE);
    Success(DollarCostAveraging(monitors, chan, date, buyQuantity))
  }

  /** The SMALLCHANGES case given `params`: the quantities `buy.base` and `sell.base`. */
  function SmallChangesFrom(params: Value, monitors: Monitors, chan: Channel): (r: Result<Strategy, Error>)
    ensures r.Success? ==>
              && r.value.SmallChanges? && r.value.monitors == monitors && r.value.chan == chan
              && QuantityAt(params, BUY, BASE, r.value.buy)
              && QuantityAt(params, SELL, BASE, r.value.sell)
    ensures forall buy, sell ::
              QuantityAt(params, BUY, BASE, buy) && QuantityAt(params, SELL, BASE, sell) ==>
                r == Success(SmallChanges(monitors, chan, buy, sell))
  {
    var buy :- Field(params, BUY);
    var buyBase :- Field(buy, BASE);
    var buyQuantity :- FromJson(buyBase);
    var sell :- Field(params, SELL);
    var sellBase :- Field(sell, BASE);
    var sellQuantity :- FromJson(sellBase);
    Success(SmallChanges(monitors, chan, buyQuantity, sellQuantity))
  }

  /** The strategy name a specification gives, upper-cased (`at::toupper`). */
  function NameOf(spec: Value): Result<Bytes, Error> {
    var name :- StringField(spec, NAME);
    Success(ToUpper(name))
  }

  /** One iteration of the innermost loop: the specification's upper-cased name selects a
      case, which reads its parameters and constructs the strategy with the shared monitors
      and channel. The specification is a const value, so a missing `name` or `params`
      fails; `params` is a mutable copy, where a missing member reads as null and fails its
      conversion. */
  function Build(spec: Value, monitors: Monitors, chan: Channel): (r: Result<Strategy, Error>)
    ensures NameOf(spec).Failure? ==> r == Failure(BadField(NAME))
    ensures r.Success? ==> NameOf(spec).Success? && Selects(NameOf(spec).value, CaseOf(r.value))
    ensures r.Success? ==> r.value.monitors == monitors && r.value.chan == chan
    ensures NameOf(spec).Success? && !IsStrategyCase(HashOf(Some(NameOf(spec).value))) ==>
              r == Failure(InvalidKey(NameOf(spec).value))
    ensures NameOf(spec).Success? && Selects(NameOf(spec).value, HODL_CASE) ==> r == Success(Hodl(monitors, chan))
    ensures NameOf(spec).Success? && !Selects(NameOf(spec).value, HODL_CASE) &&
            IsStrategyCase(HashOf(Some(NameOf(spec).value))) && Find(spec, PARAMS).None? ==>
              r == Failure(BadField(PARAMS))
    ensures NameOf(spec).Success? && Find(spec, PARAMS).Some? ==>
              var params := Find(spec, PARAMS).value;
              && (Selects(NameOf(spec).value, BUYLOWANDHODL_CASE) ==> r == BuyLowAndHodlFrom(params, monitors, chan))
              && (Selects(NameOf(spec).value, DOLLARCOSTAVERAGING_CASE) ==>
                    r == DollarCostAveragingFrom(params, monitors, chan))
              && (Selects(NameOf(spec).value, SMALLCHANGES_CASE) ==> r == SmallChangesFrom(params, monitors, chan))
  {
    var name :- NameOf(spec);
    var h := HashOf(Some(name));
    if h == HODL_CASE then
      Success(Hodl(monitors, chan))
    else if h == BUYLOWANDHODL_CASE then
      var params :- Field(spec, PARAMS);
      BuyLowAndHodlFrom(params, monitors, chan)
    else if h == DOLLARCOSTAVERAGING_CASE then
      var params :- Field(spec, PARAMS);
      DollarCostAveragingFrom(params, monitors, chan)
    else if h == SMALLCHANGES_CASE then
      var params :- Field(spec, PARAMS);
      SmallChangesFrom(params, monitors, chan)
    else
      Failure(InvalidKey(name))
  }

  /** A specification that gives only a name. */
  function Named(name: Bytes): Value {
    Object([(NAME, Str(name))])
  }

  /** Names are matched after upper-casing: "hodl", "HoDl" and "HODL" all build HODL. */
  lemma HodlInAnyCase(monitors: Monitors, chan: Channel)
    ensures Build(Named([0x68, 0x6F, 0x64, 0x6C]), monitors, chan) == Success(Hodl(monitors, chan))  // "hodl"
    ensures Build(Named([0x48, 0x6F, 0x44, 0x6C]), monitors, chan) == Success(Hodl(monitors, chan))  // "HoDl"
    ensures Build(Named(HODL), monitors, chan) == Success(Hodl(monitors, chan))
  {
    assert ToUpper([0x68, 0x6F, 0x64, 0x6C]) == HODL;
    HodlNamed([0x68, 0x6F, 0x64, 0x6C], monitors, chan);
    assert ToUpper([0x48, 0x6F, 0x44, 0x6C]) == HODL;
    HodlNamed([0x48, 0x6F, 0x44, 0x6C], monitors, chan);
    assert ToUpper(HODL) == HODL;
    HodlNamed(HODL, monitors, chan);
  }

  /** Any name that upper-cases to HODL builds HODL. */
  lemma HodlNamed(name: Bytes, monitors: Monitors, chan: Channel)
    requires ToUpper(name) == HODL
    ensures Build(Named(name), monitors, chan) == Success(Hodl(monitors, chan))
  {
    HodlCase();
    assert NameOf(Named(name)) == Success(HODL);
  }

  /** "bogus" is no strategy: the exception names it upper-cased. */
  lemma BogusNameRejected(monitors: Monitors, chan: Channel)
    ensures Build(Named([0x62, 0x6F, 0x67, 0x75, 0x73]), monitors, chan) ==          // "bogus"
              Failure(InvalidKey([0x42, 0x4F, 0x47, 0x55, 0x53]))                     // "BOGUS"
  {
    var upper: Bytes := [0x42, 0x4F, 0x47, 0x55, 0x53];
    assert ToUpper([0x62, 0x6F, 0x67, 0x75, 0x73]) == upper;
    assert HashFrom(upper, 4) == 0x530;
    assert HashFrom(upper, 3) == 0x798;
    assert HashFrom(upper, 2) == 0x684;
    assert HashFrom(upper, 1) == 0x61a;
    assert HashOf(Some(upper)) == 0x658;
  }
}
