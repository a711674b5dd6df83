/** `Config::markets`: the market data sources named in the `markets` section. */
module Markets {
  import opened Wrappers
  import opened Text
  import opened Json
  import opened Dispatch

  /** A constructed market, recorded with the arguments it was built from. */
  datatype Market = Kraken(apiKey: Bytes, apiSecret: Bytes)

  const API_KEY: Bytes := Ascii("apiKey")
  const API_SECRET: Bytes := Ascii("apiSecret")

  /** `std::make_shared<Kraken>(value["apiKey"], value["apiSecret"])`: both credentials must
      be present strings. */
  function KrakenFrom(value: Value): (r: Result<Market, Error>)
    ensures r.Success? <==> StringField(value, API_KEY).Success? && StringField(value, API_SECRET).Success?
    ensures r.Success? ==> r.value == Kraken(StringField(value, API_KEY).value, StringField(value, API_SECRET).value)
  {
    var apiKey :- StringField(value, API_KEY);
    var apiSecret :- StringField(value, API_SECRET);
    Success(Kraken(apiKey, apiSecret))
  }

  /** A member the loop gets past: its key enters the kraken case and its credentials build. */
  predicate Accepted(m: (Bytes, Value)) {
    Selects(m.0, KRAKEN_CASE) && KrakenFrom(m.1).Success?
  }

  /** What the loop throws at a member it does not accept. */
  function Rejection(m: (Bytes, Value)): Error
    requires !Accepted(m)
  {
    if Selects(m.0, KRAKEN_CASE) then KrakenFrom(m.1).error else InvalidKey(m.0)
  }

  /** The loop over the members of `markets`, in iteration order: each member must enter the
      kraken case; `ret.insert` keeps the first Kraken built under the key "kraken". The
      first member that is not accepted decides the exception. */
  function MarketsFrom(ms: seq<(Bytes, Value)>): (r: Result<map<Bytes, Market>, Error>)
    ensures r.Success? <==> forall i :: 0 <= i < |ms| ==> Accepted(ms[i])
    ensures r.Success? ==> r.value.Keys == if |ms| == 0 then {} else {KRAKEN}
    ensures r.Success? && |ms| > 0 ==> r.value[KRAKEN] == KrakenFrom(ms[0].1).value
  {
    if |ms| == 0 then Success(map[])
    else
      var prefix := ms[..|ms| - 1];
      assert forall i :: 0 <= i < |prefix| ==> prefix[i] == ms[i];
      var acc :- MarketsFrom(prefix);
      var (key, value) := ms[|ms| - 1];
      if Selects(key, KRAKEN_CASE) then
        var market :- KrakenFrom(value);
        Success(if KRAKEN in acc then acc else acc[KRAKEN := market])
      else
        Failure(InvalidKey(key))
  }

  /** The first member not accepted decides the exception. */
  lemma {:induction false} FirstRejectionDecides(ms: seq<(Bytes, Value)>, i: nat)
    requires i < |ms| && !Accepted(ms[i]) && forall j :: 0 <= j < i ==> Accepted(ms[j])
    ensures MarketsFrom(ms) == Failure(Rejection(ms[i]))
  {
    var prefix := ms[..|ms| - 1];
    assert forall j :: 0 <= j < |prefix| ==> prefix[j] == ms[j];
    if i < |ms| - 1 {
      FirstRejectionDecides(prefix, i);
    }
  }

  /** One accepted member more: the map grows as `ret.insert` does. */
  lemma AcceptedStep(ms: seq<(Bytes, Value)>, i: nat, acc: map<Bytes, Market>)
    requires i < |ms| && MarketsFrom(ms[..i]) == Success(acc) && Accepted(ms[i])
    ensures MarketsFrom(ms[..i + 1]) ==
              Success(if KRAKEN in acc then acc else acc[KRAKEN := KrakenFrom(ms[i].1).value])
  {
    assert ms[..i + 1][..i] == ms[..i];
  }

  /** The loop stops at the first member it does not accept, with that member's exception. */
  lemma RejectedAt(ms: seq<(Bytes, Value)>, i: nat, acc: map<Bytes, Market>)
    requires i < |ms| && MarketsFrom(ms[..i]) == Success(acc) && !Accepted(ms[i])
    ensures MarketsFrom(ms) == Failure(Rejection(ms[i]))
  {
    forall j | 0 <= j < i
      ensures Accepted(ms[j])
    {
      assert ms[..i][j] == ms[j];
    }
    FirstRejectionDecides(ms, i);
  }

  /** `markets()` given the value of the `markets` section. */
  function MarketsOf(section: Value): (r: Result<map<Bytes, Market>, Error>)
    ensures section == Null || section == Object([]) ==> r == Success(map[])
    ensures r.Success? ==> r.value.Keys <= {KRAKEN}
    ensures Members(section).Success? ==> r == MarketsFrom(Members(section).value)
    ensures Members(section).Failure? ==> r == Failure(KeyOfNonObject)
  {
    var ms :- Members(section);
    MarketsFrom(ms)
  }

  /** The loop of `Config::markets` over the `markets` section. */
  method BuildMarkets(section: Value) returns (r: Result<map<Bytes, Market>, Error>)
    ensures r == MarketsOf(section)
  {
    var ms :- Members(section);
    var ret: map<Bytes, Market> := map[];
    for i := 0 to |ms|
      invariant MarketsFrom(ms[..i]) == Success(ret)
    {
      var (key, value) := ms[i];
      var h := Hash(Some(key));
      if h == KRAKEN_CASE {
        var market := KrakenFrom(value);
        if market.Failure? {
          RejectedAt(ms, i, ret);
          return Failure(market.error);
        }
        AcceptedStep(ms, i, ret);
        if KRAKEN !in ret {
          ret := ret[KRAKEN := market.value];
        }
      } else {
        RejectedAt(ms, i, ret);
        return Failure(InvalidKey(key));
      }
    }
    assert ms[..|ms|] == ms;
    return Success(ret);
  }
}
