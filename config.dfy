/** `atd::Config`: the parsed configuration document and the accessors that build markets,
    exchanges, strategies and monitored pairs from it. Every accessor reads its section
    with the non-const `_config[...]`, which adds the section as null when it is missing, so
    the accessors update the document. */
module Configuration {
  import opened Wrappers
  import opened Text
  import opened Json
  import opened Dispatch
  import opened Pairs
  import opened Markets
  import opened Exchanges
  import opened Strategies
  import opened Catalogs
  import opened Monitor

  const MARKETS: Bytes := Ascii("markets")
  const EXCHANGES: Bytes := Ascii("exchanges")
  const STRATEGIES: Bytes := Ascii("strategies")
  const MONITOR: Bytes := Ascii("monitor")
  const PAIRS: Bytes := Ascii("pairs")

  /** `_config["monitor"]["pairs"]`: the document after both subscripts (the second one
      updates the `monitor` member in place) and the value of `pairs`. When the second
      subscript throws, the first one has already updated the document. */
  function MonitorPairsAccess(doc: Value): (r: (Value, Result<Value, Error>))
    ensures Subscript(doc, MONITOR).Failure? ==> r == (doc, Failure(BadField(MONITOR)))
    ensures Subscript(doc, MONITOR).Success? ==> r.0.Object? && Find(r.0, MONITOR).Some?
    ensures r.1.Success? ==> Find(r.0, MONITOR).Some? && Find(Find(r.0, MONITOR).value, PAIRS) == Some(r.1.value)
    ensures forall k :: k != MONITOR ==> Find(r.0, k) == Find(doc, k)
    ensures Find(doc, MONITOR).Some? && Find(Find(doc, MONITOR).value, PAIRS).Some? ==>
              r.1 == Success(Find(Find(doc, MONITOR).value, PAIRS).value)
    ensures (doc.Object? || doc.Null?) &&
            (Find(doc, MONITOR).None? || Find(doc, MONITOR) == Some(Null) ||
             (Find(doc, MONITOR).Some? && Find(doc, MONITOR).value.Object? &&
              Find(Find(doc, MONITOR).value, PAIRS).None?)) ==>
              r.1 == Success(Null)
    ensures Find(doc, MONITOR).Some? && !(Find(doc, MONITOR).value.Object? || Find(doc, MONITOR).value.Null?) ==>
              r.1 == Failure(BadField(PAIRS))
  {
    match Subscript(doc, MONITOR)
    case Failure(e) => (doc, Failure(e))
    case Success((doc1, monitor)) =>
      match Subscript(monitor, PAIRS)
      case Failure(e) => (doc1, Failure(e))
      case Success((monitor1, pairs)) => (Store(doc1, MONITOR, monitor1), Success(pairs))
  }

  /** A section missing from the document reads as null, which every accessor accepts:
      no markets, the default ShapeShift, no strategies. */
  lemma AbsentSections(doc: Value, monitors: Monitors, chan: Channel)
    requires doc.Object? || doc.Null?
    ensures Find(doc, MARKETS).None? ==>
              Subscript(doc, MARKETS).Success? && MarketsOf(Subscript(doc, MARKETS).value.1) == Success(map[])
    ensures Find(doc, EXCHANGES).None? ==>
              Subscript(doc, EXCHANGES).Success? &&
              ExchangesOf(Subscript(doc, EXCHANGES).value.1) == Success(map[SHAPESHIFT := Shapeshift(None)])
    ensures Find(doc, STRATEGIES).None? ==>
              Subscript(doc, STRATEGIES).Success? &&
              StrategiesOf(Subscript(doc, STRATEGIES).value.1, monitors, chan) == Success(map[])
  {
  }

  class Config {
    /** `_config`. */
    var doc: Value

    /** `Config(path)` once the file is read and parsed: the parsed document. */
    constructor(parsed: Value)
      ensures doc == parsed
    {
      doc := parsed;
    }

    /** `_config[key]`. */
    method Section(key: Bytes) returns (r: Result<Value, Error>)
      modifies this
      ensures Subscript(old(doc), key).Failure? ==> r == Failure(BadField(key)) && doc == old(doc)
      ensures Subscript(old(doc), key).Success? ==>
                doc == Subscript(old(doc), key).value.0 && r == Success(Subscript(old(doc), key).value.1)
    {
      var s := Subscript(doc, key);
      if s.Failure? {
        return Failure(s.error);
      }
      doc := s.value.0;
      return Success(s.value.1);
    }

    /** `markets()`. */
    method Markets() returns (r: Result<map<Bytes, Market>, Error>)
      modifies this
      ensures Subscript(old(doc), MARKETS).Failure? ==> r == Failure(BadField(MARKETS)) && doc == old(doc)
      ensures Subscript(old(doc), MARKETS).Success? ==>
                doc == Subscript(old(doc), MARKETS).value.0 && r == MarketsOf(Subscript(old(doc), MARKETS).value.1)
    {
      var section :- Section(MARKETS);
      r := BuildMarkets(section);
    }

    /** `exchanges()`. */
    method Exchanges() returns (r: Result<map<Bytes, Exchange>, Error>)
      modifies this
      ensures Subscript(old(doc), EXCHANGES).Failure? ==> r == Failure(BadField(EXCHANGES)) && doc == old(doc)
      ensures Subscript(old(doc), EXCHANGES).Success? ==>
                doc == Subscript(old(doc), EXCHANGES).value.0 &&
                r == ExchangesOf(Subscript(old(doc), EXCHANGES).value.1)
    {
      var section :- Section(EXCHANGES);
      r := BuildExchanges(section);
    }

    /** `strategies(monitors, chan)`. */
    method Strategies(monitors: Monitors, chan: Channel) returns (r: Result<Catalog, Error>)
      modifies this
      ensures Subscript(old(doc), STRATEGIES).Failure? ==> r == Failure(BadField(STRATEGIES)) && doc == old(doc)
      ensures Subscript(old(doc), STRATEGIES).Success? ==>
                doc == Subscript(old(doc), STRATEGIES).value.0 &&
                r == StrategiesOf(Subscript(old(doc), STRATEGIES).value.1, monitors, chan)
    {
      var section :- Section(STRATEGIES);
      r := BuildStrategies(section, monitors, chan);
    }

    /** `monitorPairs()`. */
    method MonitorPairs() returns (r: Result<seq<CurrencyPair>, Error>)
      modifies this
      ensures doc == MonitorPairsAccess(old(doc)).0
      ensures MonitorPairsAccess(old(doc)).1.Failure? ==> r == Failure(MonitorPairsAccess(old(doc)).1.error)
      ensures MonitorPairsAccess(old(doc)).1.Success? ==> r == PairsOf(Elements(MonitorPairsAccess(old(doc)).1.value))
    {
      var first := Subscript(doc, MONITOR);
      if first.Failure? {
        return Failure(first.error);
      }
      doc := first.value.0;
      var second := Subscript(first.value.1, PAIRS);
      if second.Failure? {
        return Failure(second.error);
      }
      doc := Store(doc, MONITOR, second.value.0);
      r := BuildPairs(second.value.1);
    }
  }
}
