/** The loops of `Config::strategies`: for every base currency, every quote currency under
    it and every strategy specification in that pair's array, the built strategy is appended
    to the pair's list (`ret[pair].push_back`). */
module Catalogs {
  import opened Wrappers
  import opened Text
  import opened Json
  import opened Pairs
  import opened Strategies

  /** The strategies of one array in order, or the exception of the first that fails. */
  function BuildAll(specs: seq<Value>, monitors: Monitors, chan: Channel): (r: Result<seq<Strategy>, Error>)
    ensures r.Success? <==> forall i :: 0 <= i < |specs| ==> Build(specs[i], monitors, chan).Success?
    ensures r.Success? ==> |r.value| == |specs|
  {
    if |specs| == 0 then Success([])
    else
      var prefix := specs[..|specs| - 1];
      assert forall i :: 0 <= i < |prefix| ==> prefix[i] == specs[i];
      var done :- BuildAll(prefix, monitors, chan);
      var s :- Build(specs[|specs| - 1], monitors, chan);
      Success(done + [s])
  }

  /** The strategies come in array order, one per specification: the i-th strategy is the
      one the i-th specification builds. */
  lemma {:induction false} BuildAllInOrder(specs: seq<Value>, monitors: Monitors, chan: Channel, i: nat)
    requires BuildAll(specs, monitors, chan).Success? && i < |specs|
    ensures BuildAll(specs, monitors, chan).value[i] == Build(specs[i], monitors, chan).value
  {
    var n := |specs|;
    var prefix := specs[..n - 1];
    BuildAllSnoc(specs, monitors, chan);
    if i < n - 1 {
      BuildAllInOrder(prefix, monitors, chan, i);
      assert prefix[i] == specs[i];
    }
  }

  /** A successful array's strategies are those of all but its last specification, then the
      last one's. */
  lemma BuildAllSnoc(specs: seq<Value>, monitors: Monitors, chan: Channel)
    requires |specs| > 0 && BuildAll(specs, monitors, chan).Success?
    ensures BuildAll(specs[..|specs| - 1], monitors, chan).Success?
    ensures Build(specs[|specs| - 1], monitors, chan).Success?
    ensures BuildAll(specs, monitors, chan).value ==
              BuildAll(specs[..|specs| - 1], monitors, chan).value + [Build(specs[|specs| - 1], monitors, chan).value]
  {
  }

  /** The first specification that fails decides the exception. */
  lemma {:induction false} FirstFailureDecides(specs: seq<Value>, monitors: Monitors, chan: Channel, i: nat)
    requires i < |specs| && Build(specs[i], monitors, chan).Failure?
    requires forall j :: 0 <= j < i ==> Build(specs[j], monitors, chan).Success?
    ensures BuildAll(specs, monitors, chan) == Failure(Build(specs[i], monitors, chan).error)
  {
    var prefix := specs[..|specs| - 1];
    assert forall j :: 0 <= j < |prefix| ==> prefix[j] == specs[j];
    if i < |specs| - 1 {
      FirstFailureDecides(prefix, monitors, chan, i);
    }
  }

  /** The list of a pair; a pair without an entry has none. */
  function Get(cat: Catalog, pair: CurrencyPair): seq<Strategy> {
    if pair in cat then cat[pair] else []
  }

  /** A pair is in the map only once a strategy has been pushed for it. */
  predicate NoneEmpty(cat: Catalog) {
    forall p :: p in cat ==> |cat[p]| > 0
  }

  /** `ret[pair].push_back(s)`: `operator[]` creates an empty list for a new pair. */
  function Push(cat: Catalog, pair: CurrencyPair, s: Strategy): (r: Catalog)
    ensures r.Keys == cat.Keys + {pair}
    ensures Get(r, pair) == Get(cat, pair) + [s]
    ensures forall p :: p != pair ==> Get(r, p) == Get(cat, p)
    ensures NoneEmpty(cat) ==> NoneEmpty(r)
  {
    cat[pair := Get(cat, pair) + [s]]
  }

  /** All of built appended to the list of pair at once. */
  function Extend(cat: Catalog, pair: CurrencyPair, built: seq<Strategy>): (r: Catalog)
    ensures r.Keys == if |built| == 0 then cat.Keys else cat.Keys + {pair}
    ensures Get(r, pair) == Get(cat, pair) + built
    ensures forall p :: p != pair ==> Get(r, p) == Get(cat, p)
    ensures NoneEmpty(cat) ==> NoneEmpty(r)
  {
    if |built| == 0 then cat else cat[pair := Get(cat, pair) + built]
  }

  /** The innermost loop over one array. Pushing the strategies one by one is extending the
      pair's list by all of them, or the first failure. */
  function AddArray(cat: Catalog, pair: CurrencyPair, specs: seq<Value>, monitors: Monitors, chan: Channel)
    : (r: Result<Catalog, Error>)
    ensures BuildAll(specs, monitors, chan).Failure? ==> r == Failure(BuildAll(specs, monitors, chan).error)
    ensures BuildAll(specs, monitors, chan).Success? ==>
              r == Success(Extend(cat, pair, BuildAll(specs, monitors, chan).value))
  {
    if |specs| == 0 then Success(cat)
    else
      var acc :- AddArray(cat, pair, specs[..|specs| - 1], monitors, chan);
      var s :- Build(specs[|specs| - 1], monitors, chan);
      ExtendPush(cat, pair, BuildAll(specs[..|specs| - 1], monitors, chan).value, s);
      Success(Push(acc, pair, s))
  }

  /** Extending by one more strategy is pushing it. */
  lemma ExtendPush(cat: Catalog, pair: CurrencyPair, built: seq<Strategy>, s: Strategy)
    ensures Extend(cat, pair, built + [s]) == Push(Extend(cat, pair, built), pair, s)
  {
    if |built| == 0 {
      assert built + [s] == [s];
    } else {
      assert Get(cat, pair) + built + [s] == Get(cat, pair) + (built + [s]);
    }
  }

  /** Every array under one base builds. */
  predicate QuotesBuild(quotes: seq<(Bytes, Value)>, monitors: Monitors, chan: Channel) {
    forall j :: 0 <= j < |quotes| ==> BuildAll(Elements(quotes[j].1), monitors, chan).Success?
  }

  lemma QuotesBuildSplit(quotes: seq<(Bytes, Value)>, monitors: Monitors, chan: Channel)
    requires |quotes| > 0
    ensures QuotesBuild(quotes, monitors, chan) <==>
              QuotesBuild(quotes[..|quotes| - 1], monitors, chan) &&
              BuildAll(Elements(quotes[|quotes| - 1].1), monitors, chan).Success?
  {
    var prefix := quotes[..|quotes| - 1];
    assert forall j :: 0 <= j < |prefix| ==> prefix[j] == quotes[j];
  }

  /** The middle loop over the quote currencies of one base. */
  function AddQuotes(cat: Catalog, base: Bytes, quotes: seq<(Bytes, Value)>, monitors: Monitors, chan: Channel)
    : (r: Result<Catalog, Error>)
    ensures r.Success? <==> QuotesBuild(quotes, monitors, chan)
    ensures r.Success? ==> forall p: CurrencyPair :: p.base != base || p.quote !in KeysOf(quotes) ==>
                                         (p in r.value <==> p in cat) && Get(r.value, p) == Get(cat, p)
    ensures r.Success? ==> forall p :: p in r.value ==> p in cat || (p.base == base && p.quote in KeysOf(quotes))
    ensures r.Success? && NoneEmpty(cat) ==> NoneEmpty(r.value)
  {
    if |quotes| == 0 then Success(cat)
    else
      var prefix := quotes[..|quotes| - 1];
      assert forall j :: 0 <= j < |prefix| ==> prefix[j] == quotes[j];
      assert forall q :: q in KeysOf(prefix) ==> q in KeysOf(quotes);
      QuotesBuildSplit(quotes, monitors, chan);
      var acc :- AddQuotes(cat, base, prefix, monitors, chan);
      var (quote, strategies) := quotes[|quotes| - 1];
      assert quote in KeysOf(quotes);
      AddArray(acc, CurrencyPair(base, quote), Elements(strategies), monitors, chan)
  }

  /** Every base has quote members and every array under them builds. */
  predicate BasesBuild(bases: seq<(Bytes, Value)>, monitors: Monitors, chan: Channel) {
    forall i :: 0 <= i < |bases| ==>
      Members(bases[i].1).Success? && QuotesBuild(Members(bases[i].1).value, monitors, chan)
  }

  lemma BasesBuildSplit(bases: seq<(Bytes, Value)>, monitors: Monitors, chan: Channel)
    requires |bases| > 0
    ensures BasesBuild(bases, monitors, chan) <==>
              && BasesBuild(bases[..|bases| - 1], monitors, chan)
              && Members(bases[|bases| - 1].1).Success?
              && QuotesBuild(Members(bases[|bases| - 1].1).value, monitors, chan)
  {
    var prefix := bases[..|bases| - 1];
    assert forall i :: 0 <= i < |prefix| ==> prefix[i] == bases[i];
  }

  /** Some base of the section lists the pair's quote currency. */
  predicate Listed(bases: seq<(Bytes, Value)>, p: CurrencyPair) {
    exists i :: 0 <= i < |bases| && bases[i].0 == p.base && Members(bases[i].1).Success? &&
                p.quote in KeysOf(Members(bases[i].1).value)
  }

  /** The outer loop over the base currencies. */
  function AddBases(cat: Catalog, bases: seq<(Bytes, Value)>, monitors: Monitors, chan: Channel)
    : (r: Result<Catalog, Error>)
    ensures r.Success? <==> BasesBuild(bases, monitors, chan)
    ensures r.Success? ==> forall p: CurrencyPair :: p.base !in KeysOf(bases) ==>
                                         (p in r.value <==> p in cat) && Get(r.value, p) == Get(cat, p)
    ensures r.Success? ==> forall p :: p in r.value ==> p in cat || Listed(bases, p)
    ensures r.Success? && NoneEmpty(cat) ==> NoneEmpty(r.value)
  {
    if |bases| == 0 then Success(cat)
    else
      var prefix := bases[..|bases| - 1];
      assert forall i :: 0 <= i < |prefix| ==> prefix[i] == bases[i];
      assert forall b :: b in KeysOf(prefix) ==> b in KeysOf(bases);
      BasesBuildSplit(bases, monitors, chan);
      var acc :- AddBases(cat, prefix, monitors, chan);
      var (base, quotes) := bases[|bases| - 1];
      assert base in KeysOf(bases);
      var qs :- Members(quotes);
      AddQuotes(acc, base, qs, monitors, chan)
  }

  /** `strategies(monitors, chan)` given the value of the `strategies` section. */
  function StrategiesOf(section: Value, monitors: Monitors, chan: Channel): (r: Result<Catalog, Error>)
    ensures section == Null || section == Object([]) ==> r == Success(map[])
    ensures Members(section).Failure? ==> r == Failure(KeyOfNonObject)
    ensures Members(section).Success? ==> (r.Success? <==> BasesBuild(Members(section).value, monitors, chan))
    ensures r.Success? ==> NoneEmpty(r.value)
    ensures r.Success? ==> forall p :: p in r.value ==> Listed(Members(section).value, p)
  {
    var bases :- Members(section);
    AddBases(map[], bases, monitors, chan)
  }

  /** Under one base with distinct quote keys, each quote's pair receives exactly the
      strategies of its array. */
  lemma {:induction false} QuotesContent(cat: Catalog, base: Bytes, quotes: seq<(Bytes, Value)>,
                                         monitors: Monitors, chan: Channel, j: nat)
    requires DistinctKeys(quotes) && AddQuotes(cat, base, quotes, monitors, chan).Success? && j < |quotes|
    ensures Get(AddQuotes(cat, base, quotes, monitors, chan).value, CurrencyPair(base, quotes[j].0)) ==
              Get(cat, CurrencyPair(base, quotes[j].0)) + BuildAll(Elements(quotes[j].1), monitors, chan).value
  {
    var n := |quotes|;
    var prefix := quotes[..n - 1];
    assert forall k :: 0 <= k < |prefix| ==> prefix[k] == quotes[k];
    AddQuotesStep(cat, base, quotes, monitors, chan);
    var acc := AddQuotes(cat, base, prefix, monitors, chan).value;
    var q := quotes[n - 1].0;
    var last := CurrencyPair(base, q);
    var built := BuildAll(Elements(quotes[n - 1].1), monitors, chan).value;
    assert AddQuotes(cat, base, quotes, monitors, chan).value == Extend(acc, last, built);
    if j == n - 1 {
      assert q !in KeysOf(prefix);
      assert Get(acc, last) == Get(cat, last);
    } else {
      QuotesContent(cat, base, prefix, monitors, chan, j);
      assert quotes[j].0 != q;
      assert CurrencyPair(base, quotes[j].0) != last;
    }
  }

  /** With distinct base keys and distinct quote keys under each base, the pair of base i and
      its quote j receives exactly the strategies of that quote's array. */
  lemma {:induction false} BasesContent(cat: Catalog, bases: seq<(Bytes, Value)>, monitors: Monitors, chan: Channel,
                                        i: nat, j: nat)
    requires DistinctKeys(bases) && AddBases(cat, bases, monitors, chan).Success? && i < |bases|
    requires DistinctKeys(Members(bases[i].1).value) && j < |Members(bases[i].1).value|
    ensures var quote := Members(bases[i].1).value[j];
            Get(AddBases(cat, bases, monitors, chan).value, CurrencyPair(bases[i].0, quote.0)) ==
              Get(cat, CurrencyPair(bases[i].0, quote.0)) + BuildAll(Elements(quote.1), monitors, chan).value
    decreases |bases|, 1
  {
    if i == |bases| - 1 {
      LastBaseContent(cat, bases, monitors, chan, j);
    } else {
      EarlierBaseContent(cat, bases, monitors, chan, i, j);
    }
  }

  /** The quotes of the last base land on top of what the earlier bases, which do not name
      it, left for its pairs. */
  lemma LastBaseContent(cat: Catalog, bases: seq<(Bytes, Value)>, monitors: Monitors, chan: Channel, j: nat)
    requires DistinctKeys(bases) && AddBases(cat, bases, monitors, chan).Success? && |bases| > 0
    requires DistinctKeys(Members(bases[|bases| - 1].1).value) && j < |Members(bases[|bases| - 1].1).value|
    ensures var quote := Members(bases[|bases| - 1].1).value[j];
            Get(AddBases(cat, bases, monitors, chan).value, CurrencyPair(bases[|bases| - 1].0, quote.0)) ==
              Get(cat, CurrencyPair(bases[|bases| - 1].0, quote.0)) + BuildAll(Elements(quote.1), monitors, chan).value
  {
    var n := |bases|;
    var prefix := bases[..n - 1];
    AddBasesStep(cat, bases, monitors, chan);
    var acc := AddBases(cat, prefix, monitors, chan).value;
    var b := bases[n - 1].0;
    var qs := Members(bases[n - 1].1).value;
    var pair := CurrencyPair(b, qs[j].0);
    assert forall k :: 0 <= k < |prefix| ==> prefix[k] == bases[k];
    assert b !in KeysOf(prefix);
    BasesFrame(cat, prefix, monitors, chan, pair);
    QuotesContent(acc, b, qs, monitors, chan, j);
  }

  /** The last base does not touch the pairs of an earlier one. */
  lemma {:induction false} EarlierBaseContent(cat: Catalog, bases: seq<(Bytes, Value)>, monitors: Monitors,
                                              chan: Channel, i: nat, j: nat)
    requires DistinctKeys(bases) && AddBases(cat, bases, monitors, chan).Success? && i < |bases| - 1
    requires DistinctKeys(Members(bases[i].1).value) && j < |Members(bases[i].1).value|
    ensures var quote := Members(bases[i].1).value[j];
            Get(AddBases(cat, bases, monitors, chan).value, CurrencyPair(bases[i].0, quote.0)) ==
              Get(cat, CurrencyPair(bases[i].0, quote.0)) + BuildAll(Elements(quote.1), monitors, chan).value
    decreases |bases|, 0
  {
    var n := |bases|;
    var prefix := bases[..n - 1];
    AddBasesStep(cat, bases, monitors, chan);
    assert prefix[i] == bases[i];
    DistinctPrefix(bases, n - 1);
    BasesContent(cat, prefix, monitors, chan, i, j);
    assert bases[i].0 != bases[n - 1].0;
    QuotesFrame(AddBases(cat, prefix, monitors, chan).value, bases[n - 1].0, Members(bases[n - 1].1).value,
                monitors, chan, CurrencyPair(bases[i].0, Members(bases[i].1).value[j].0));
  }

  lemma DistinctPrefix(ms: seq<(Bytes, Value)>, k: nat)
    requires DistinctKeys(ms) && k <= |ms|
    ensures DistinctKeys(ms[..k])
  {
    assert forall i :: 0 <= i < k ==> ms[..k][i] == ms[i];
  }

  /** Adding bases leaves the pairs of every base not among them as they were. */
  lemma BasesFrame(cat: Catalog, bases: seq<(Bytes, Value)>, monitors: Monitors, chan: Channel, p: CurrencyPair)
    requires AddBases(cat, bases, monitors, chan).Success? && p.base !in KeysOf(bases)
    ensures Get(AddBases(cat, bases, monitors, chan).value, p) == Get(cat, p)
  {
  }

  /** Adding the quotes of one base leaves the pairs of every other base as they were. */
  lemma QuotesFrame(cat: Catalog, base: Bytes, quotes: seq<(Bytes, Value)>, monitors: Monitors, chan: Channel,
                    p: CurrencyPair)
    requires AddQuotes(cat, base, quotes, monitors, chan).Success? && p.base != base
    ensures Get(AddQuotes(cat, base, quotes, monitors, chan).value, p) == Get(cat, p)
  {
  }

  /** The last quote's array is added to what the quotes before it built. */
  lemma AddQuotesStep(cat: Catalog, base: Bytes, quotes: seq<(Bytes, Value)>, monitors: Monitors, chan: Channel)
    requires |quotes| > 0 && AddQuotes(cat, base, quotes, monitors, chan).Success?
    ensures AddQuotes(cat, base, quotes[..|quotes| - 1], monitors, chan).Success?
    ensures BuildAll(Elements(quotes[|quotes| - 1].1), monitors, chan).Success?
    ensures AddQuotes(cat, base, quotes, monitors, chan) ==
              AddArray(AddQuotes(cat, base, quotes[..|quotes| - 1], monitors, chan).value,
                       CurrencyPair(base, quotes[|quotes| - 1].0), Elements(quotes[|quotes| - 1].1), monitors, chan)
  {
    QuotesBuildSplit(quotes, monitors, chan);
  }

  /** The last base's quotes are added to what the bases before it built. */
  lemma AddBasesStep(cat: Catalog, bases: seq<(Bytes, Value)>, monitors: Monitors, chan: Channel)
    requires |bases| > 0 && AddBases(cat, bases, monitors, chan).Success?
    ensures AddBases(cat, bases[..|bases| - 1], monitors, chan).Success?
    ensures Members(bases[|bases| - 1].1).Success?
    ensures AddBases(cat, bases, monitors, chan) ==
              AddQuotes(AddBases(cat, bases[..|bases| - 1], monitors, chan).value, bases[|bases| - 1].0,
                        Members(bases[|bases| - 1].1).value, monitors, chan)
  {
    BasesBuildSplit(bases, monitors, chan);
  }

  /** `strategies()` on a section whose objects have distinct keys (as a parsed document's
      do): the pair of base i and quote j maps to the strategies of its array, in the array's
      order, and is present exactly when the array has a strategy. */
  lemma PairStrategies(section: Value, monitors: Monitors, chan: Channel, i: nat, j: nat)
    requires section.Object? && SortedKeys(section.members)
    requires StrategiesOf(section, monitors, chan).Success? && i < |section.members|
    requires SortedKeys(Members(section.members[i].1).value) && j < |Members(section.members[i].1).value|
    ensures var r := StrategiesOf(section, monitors, chan).value;
            var quote := Members(section.members[i].1).value[j];
            var pair := CurrencyPair(section.members[i].0, quote.0);
            && Get(r, pair) == BuildAll(Elements(quote.1), monitors, chan).value
            && (pair in r <==> |Elements(quote.1)| > 0)
  {
    SortedKeysAreDistinct(section.members);
    SortedKeysAreDistinct(Members(section.members[i].1).value);
    BasesContent(map[], section.members, monitors, chan, i, j);
  }

  // Steps of the three loops, as the method below takes them.

  lemma ArrayStep(cat: Catalog, pair: CurrencyPair, specs: seq<Value>, monitors: Monitors, chan: Channel, k: nat)
    requires k < |specs| && AddArray(cat, pair, specs[..k], monitors, chan).Success?
    requires Build(specs[k], monitors, chan).Success?
    ensures AddArray(cat, pair, specs[..k + 1], monitors, chan) ==
              Success(Push(AddArray(cat, pair, specs[..k], monitors, chan).value, pair, Build(specs[k], monitors, chan).value))
  {
    assert specs[..k + 1][..k] == specs[..k];
  }

  /** The first specification that fails ends the innermost loop, and the array fails with it. */
  lemma ArrayFailsAt(cat: Catalog, pair: CurrencyPair, specs: seq<Value>, monitors: Monitors, chan: Channel, k: nat)
    requires k < |specs| && AddArray(cat, pair, specs[..k], monitors, chan).Success?
    requires Build(specs[k], monitors, chan).Failure?
    ensures AddArray(cat, pair, specs, monitors, chan) == Failure(Build(specs[k], monitors, chan).error)
  {
    assert BuildAll(specs[..k], monitors, chan).Success?;
    forall j | 0 <= j < k
      ensures Build(specs[j], monitors, chan).Success?
    {
      assert specs[..k][j] == specs[j];
    }
    FirstFailureDecides(specs, monitors, chan, k);
  }

  lemma QuotesStep(cat: Catalog, base: Bytes, quotes: seq<(Bytes, Value)>, monitors: Monitors, chan: Channel, j: nat)
    requires j < |quotes| && AddQuotes(cat, base, quotes[..j], monitors, chan).Success?
    ensures AddQuotes(cat, base, quotes[..j + 1], monitors, chan) ==
              AddArray(AddQuotes(cat, base, quotes[..j], monitors, chan).value, CurrencyPair(base, quotes[j].0),
                       Elements(quotes[j].1), monitors, chan)
  {
    assert quotes[..j + 1][..j] == quotes[..j];
  }

  lemma QuotesStepFails(cat: Catalog, base: Bytes, quotes: seq<(Bytes, Value)>, monitors: Monitors, chan: Channel,
                        k: nat)
    requires k < |quotes| && AddQuotes(cat, base, quotes[..k], monitors, chan).Failure?
    ensures AddQuotes(cat, base, quotes[..k + 1], monitors, chan) == AddQuotes(cat, base, quotes[..k], monitors, chan)
  {
    assert quotes[..k + 1][..k] == quotes[..k];
  }

  /** Once the quotes up to k fail, all of them fail the same way. */
  lemma {:induction false} QuotesFailurePersists(cat: Catalog, base: Bytes, quotes: seq<(Bytes, Value)>,
                                                 monitors: Monitors, chan: Channel, k: nat)
    requires k <= |quotes| && AddQuotes(cat, base, quotes[..k], monitors, chan).Failure?
    ensures AddQuotes(cat, base, quotes, monitors, chan) == AddQuotes(cat, base, quotes[..k], monitors, chan)
    decreases |quotes| - k
  {
    if k < |quotes| {
      QuotesStepFails(cat, base, quotes, monitors, chan, k);
      QuotesFailurePersists(cat, base, quotes, monitors, chan, k + 1);
    } else {
      assert quotes[..k] == quotes;
    }
  }

  lemma BasesStep(cat: Catalog, bases: seq<(Bytes, Value)>, monitors: Monitors, chan: Channel, i: nat)
    requires i < |bases| && AddBases(cat, bases[..i], monitors, chan).Success?
    ensures Members(bases[i].1).Failure? ==> AddBases(cat, bases[..i + 1], monitors, chan) == Failure(KeyOfNonObject)
    ensures Members(bases[i].1).Success? ==>
              AddBases(cat, bases[..i + 1], monitors, chan) ==
                AddQuotes(AddBases(cat, bases[..i], monitors, chan).value, bases[i].0, Members(bases[i].1).value,
                          monitors, chan)
  {
    assert bases[..i + 1][..i] == bases[..i];
  }

  lemma BasesStepFails(cat: Catalog, bases: seq<(Bytes, Value)>, monitors: Monitors, chan: Channel, k: nat)
    requires k < |bases| && AddBases(cat, bases[..k], monitors, chan).Failure?
    ensures AddBases(cat, bases[..k + 1], monitors, chan) == AddBases(cat, bases[..k], monitors, chan)
  {
    assert bases[..k + 1][..k] == bases[..k];
  }

  /** Once the bases up to k fail, all of them fail the same way. */
  lemma {:induction false} BasesFailurePersists(cat: Catalog, bases: seq<(Bytes, Value)>, monitors: Monitors,
                                                chan: Channel, k: nat)
    requires k <= |bases| && AddBases(cat, bases[..k], monitors, chan).Failure?
    ensures AddBases(cat, bases, monitors, chan) == AddBases(cat, bases[..k], monitors, chan)
    decreases |bases| - k
  {
    if k < |bases| {
      BasesStepFails(cat, bases, monitors, chan, k);
      BasesFailurePersists(cat, bases, monitors, chan, k + 1);
    } else {
      assert bases[..k] == bases;
    }
  }

  /** The innermost loop of `Config::strategies`: each specification of one array is built
      and pushed onto the pair's list. */
  method BuildArray(cat: Catalog, pair: CurrencyPair, specs: seq<Value>, monitors: Monitors, chan: Channel)
    returns (r: Result<Catalog, Error>)
    ensures r == AddArray(cat, pair, specs, monitors, chan)
  {
    var ret := cat;
    for k := 0 to |specs|
      invariant AddArray(cat, pair, specs[..k], monitors, chan) == Success(ret)
    {
      var strategy := Build(specs[k], monitors, chan);
      if strategy.Failure? {
        ArrayFailsAt(cat, pair, specs, monitors, chan, k);
        return Failure(strategy.error);
      }
      ArrayStep(cat, pair, specs, monitors, chan, k);
      ret := Push(ret, pair, strategy.value);
    }
    assert specs[..|specs|] == specs;
    return Success(ret);
  }

  /** The middle loop of `Config::strategies`: the arrays of every quote under one base. */
  method BuildQuotes(cat: Catalog, base: Bytes, quotes: seq<(Bytes, Value)>, monitors: Monitors, chan: Channel)
    returns (r: Result<Catalog, Error>)
    ensures r == AddQuotes(cat, base, quotes, monitors, chan)
  {
    var ret := cat;
    for j := 0 to |quotes|
      invariant AddQuotes(cat, base, quotes[..j], monitors, chan) == Success(ret)
    {
      QuotesStep(cat, base, quotes, monitors, chan, j);
      var added := BuildArray(ret, CurrencyPair(base, quotes[j].0), Elements(quotes[j].1), monitors, chan);
      if added.Failure? {
        QuotesFailurePersists(cat, base, quotes, monitors, chan, j + 1);
        return Failure(added.error);
      }
      ret := added.value;
    }
    assert quotes[..|quotes|] == quotes;
    return Success(ret);
  }

  /** The three loops of `Config::strategies` over the `strategies` section. */
  method BuildStrategies(section: Value, monitors: Monitors, chan: Channel) returns (r: Result<Catalog, Error>)
    ensures r == StrategiesOf(section, monitors, chan)
  {
    var bases :- Members(section);
    var ret: Catalog := map[];
    for i := 0 to |bases|
      invariant AddBases(map[], bases[..i], monitors, chan) == Success(ret)
    {
      BasesStep(map[], bases, monitors, chan, i);
      var quoteMembers := Members(bases[i].1);
      if quoteMembers.Failure? {
        BasesFailurePersists(map[], bases, monitors, chan, i + 1);
        return Failure(KeyOfNonObject);
      }
      var added := BuildQuotes(ret, bases[i].0, quoteMembers.value, monitors, chan);
      if added.Failure? {
        BasesFailurePersists(map[], bases, monitors, chan, i + 1);
        return Failure(added.error);
      }
      ret := added.value;
    }
    assert bases[..|bases|] == bases;
    return Success(ret);
  }

  // Which exception `strategies()` throws: the first specification that fails, in base,
  // quote and array order, or the first base whose value cannot be iterated by key.

  /** Quote j's array is the first under its base that does not build. */
  predicate QuoteFailsFirst(quotes: seq<(Bytes, Value)>, j: nat, monitors: Monitors, chan: Channel) {
    && j < |quotes|
    && BuildAll(Elements(quotes[j].1), monitors, chan).Failure?
    && forall k :: 0 <= k < j ==> BuildAll(Elements(quotes[k].1), monitors, chan).Success?
  }

  /** Every base before i has quote members and all their arrays build. */
  predicate BasesBuildBefore(bases: seq<(Bytes, Value)>, i: nat, monitors: Monitors, chan: Channel) {
    forall k :: 0 <= k < i && k < |bases| ==>
      Members(bases[k].1).Success? && QuotesBuild(Members(bases[k].1).value, monitors, chan)
  }

  /** Under one base, the first quote whose array fails decides the exception. */
  lemma QuotesFirstFailure(cat: Catalog, base: Bytes, quotes: seq<(Bytes, Value)>, monitors: Monitors,
                           chan: Channel, j: nat)
    requires QuoteFailsFirst(quotes, j, monitors, chan)
    ensures AddQuotes(cat, base, quotes, monitors, chan) ==
              Failure(BuildAll(Elements(quotes[j].1), monitors, chan).error)
  {
    var done := quotes[..j];
    assert forall k :: 0 <= k < |done| ==> done[k] == quotes[k];
    assert QuotesBuild(done, monitors, chan);
    QuotesFailAt(cat, base, quotes, monitors, chan, j);
  }

  /** An array that fails after quotes that built ends the base with its exception. */
  lemma QuotesFailAt(cat: Catalog, base: Bytes, quotes: seq<(Bytes, Value)>, monitors: Monitors, chan: Channel,
                     j: nat)
    requires j < |quotes| && AddQuotes(cat, base, quotes[..j], monitors, chan).Success?
    requires BuildAll(Elements(quotes[j].1), monitors, chan).Failure?
    ensures AddQuotes(cat, base, quotes, monitors, chan) ==
              Failure(BuildAll(Elements(quotes[j].1), monitors, chan).error)
  {
    QuotesStep(cat, base, quotes, monitors, chan, j);
    QuotesFailurePersists(cat, base, quotes, monitors, chan, j + 1);
  }

  /** The first base whose value cannot be iterated by key decides the exception. */
  lemma BasesFailAtKeys(cat: Catalog, bases: seq<(Bytes, Value)>, monitors: Monitors, chan: Channel, i: nat)
    requires i < |bases| && BasesBuildBefore(bases, i, monitors, chan) && Members(bases[i].1).Failure?
    ensures AddBases(cat, bases, monitors, chan) == Failure(KeyOfNonObject)
  {
    var done := bases[..i];
    assert forall k :: 0 <= k < |done| ==> done[k] == bases[k];
    assert BasesBuild(done, monitors, chan);
    BasesStep(cat, bases, monitors, chan, i);
    BasesFailurePersists(cat, bases, monitors, chan, i + 1);
  }

  /** Otherwise the first quote that fails under the first failing base decides it. */
  lemma BasesFailAtQuote(cat: Catalog, bases: seq<(Bytes, Value)>, monitors: Monitors, chan: Channel,
                         i: nat, j: nat)
    requires i < |bases| && BasesBuildBefore(bases, i, monitors, chan) && Members(bases[i].1).Success?
    requires QuoteFailsFirst(Members(bases[i].1).value, j, monitors, chan)
    ensures AddBases(cat, bases, monitors, chan) ==
              Failure(BuildAll(Elements(Members(bases[i].1).value[j].1), monitors, chan).error)
  {
    var done := bases[..i];
    assert forall k :: 0 <= k < |done| ==> done[k] == bases[k];
    assert BasesBuild(done, monitors, chan);
    BasesQuoteFailAt(cat, bases, monitors, chan, i, j);
  }

  /** A quote that fails first under a base, after bases that built, ends the call. */
  lemma BasesQuoteFailAt(cat: Catalog, bases: seq<(Bytes, Value)>, monitors: Monitors, chan: Channel,
                         i: nat, j: nat)
    requires i < |bases| && AddBases(cat, bases[..i], monitors, chan).Success? && Members(bases[i].1).Success?
    requires QuoteFailsFirst(Members(bases[i].1).value, j, monitors, chan)
    ensures AddBases(cat, bases, monitors, chan) ==
              Failure(BuildAll(Elements(Members(bases[i].1).value[j].1), monitors, chan).error)
  {
    BasesStep(cat, bases, monitors, chan, i);
    QuotesFirstFailure(AddBases(cat, bases[..i], monitors, chan).value, bases[i].0, Members(bases[i].1).value,
                       monitors, chan, j);
    BasesFailurePersists(cat, bases, monitors, chan, i + 1);
  }

  /** The exception `strategies()` throws is that of the first specification that fails,
      in base, quote and array order. */
  lemma StrategiesFirstFailure(section: Value, monitors: Monitors, chan: Channel, i: nat, j: nat, k: nat)
    requires Members(section).Success? && i < |Members(section).value|
    requires BasesBuildBefore(Members(section).value, i, monitors, chan)
    requires Members(Members(section).value[i].1).Success?
    requires QuoteFailsFirst(Members(Members(section).value[i].1).value, j, monitors, chan)
    requires var specs := Elements(Members(Members(section).value[i].1).value[j].1);
             && k < |specs| && Build(specs[k], monitors, chan).Failure?
             && forall l :: 0 <= l < k ==> Build(specs[l], monitors, chan).Success?
    ensures StrategiesOf(section, monitors, chan) ==
              Failure(Build(Elements(Members(Members(section).value[i].1).value[j].1)[k], monitors, chan).error)
  {
    var bases := Members(section).value;
    var specs := Elements(Members(bases[i].1).value[j].1);
    FirstFailureDecides(specs, monitors, chan, k);
    BasesFailAtQuote(map[], bases, monitors, chan, i, j);
  }

  /** A base whose value cannot be iterated by key, after bases that all build, makes
      `strategies()` throw invalid_iterator. */
  lemma StrategiesKeysFailure(section: Value, monitors: Monitors, chan: Channel, i: nat)
    requires Members(section).Success? && i < |Members(section).value|
    requires BasesBuildBefore(Members(section).value, i, monitors, chan)
    requires Members(Members(section).value[i].1).Failure?
    ensures StrategiesOf(section, monitors, chan) == Failure(KeyOfNonObject)
  {
    BasesFailAtKeys(map[], Members(section).value, monitors, chan, i);
  }

  // Counting strategy handles.

  /** Some pair of a nonempty catalog. */
  ghost function Pick(cat: Catalog): (p: CurrencyPair)
    requires |cat| > 0
    ensures p in cat
  {
    var p :| p in cat.Keys;
    p
  }

  /** The number of strategy handles in a catalog: the lengths of all its lists. */
  ghost function Total(cat: Catalog): nat
    decreases |cat|
  {
    if |cat| == 0 then 0
    else |cat[Pick(cat)]| + Total(cat - {Pick(cat)})
  }

  /** Any pair may be counted first. */
  lemma {:induction false} TotalRemove(cat: Catalog, p: CurrencyPair)
    requires p in cat
    ensures Total(cat) == |cat[p]| + Total(cat - {p})
    decreases |cat|
  {
    var q := Pick(cat);
    if q != p {
      TotalRemove(cat - {q}, p);
      TotalRemove(cat - {p}, q);
      assert cat - {q} - {p} == cat - {p} - {q};
    }
  }

  lemma TotalExtend(cat: Catalog, pair: CurrencyPair, built: seq<Strategy>)
    ensures Total(Extend(cat, pair, built)) == Total(cat) + |built|
  {
    var r := Extend(cat, pair, built);
    if |built| > 0 {
      TotalRemove(r, pair);
      if pair in cat {
        TotalRemove(cat, pair);
        assert r - {pair} == cat - {pair};
      } else {
        assert r - {pair} == cat;
      }
    }
  }

  /** The number of strategy specifications the arrays under one base list. */
  function QuoteEntries(quotes: seq<(Bytes, Value)>): nat {
    if |quotes| == 0 then 0
    else QuoteEntries(quotes[..|quotes| - 1]) + |Elements(quotes[|quotes| - 1].1)|
  }

  /** The number of strategy specifications in the section. */
  function BaseEntries(bases: seq<(Bytes, Value)>): nat {
    if |bases| == 0 then 0
    else
      BaseEntries(bases[..|bases| - 1]) +
        match Members(bases[|bases| - 1].1)
        case Success(quotes) => QuoteEntries(quotes)
        case Failure(_) => 0
  }

  lemma {:induction false} QuotesTotal(cat: Catalog, base: Bytes, quotes: seq<(Bytes, Value)>, monitors: Monitors,
                                       chan: Channel)
    requires AddQuotes(cat, base, quotes, monitors, chan).Success?
    ensures Total(AddQuotes(cat, base, quotes, monitors, chan).value) == Total(cat) + QuoteEntries(quotes)
  {
    if |quotes| > 0 {
      var prefix := quotes[..|quotes| - 1];
      QuotesBuildSplit(quotes, monitors, chan);
      QuotesTotal(cat, base, prefix, monitors, chan);
      var acc := AddQuotes(cat, base, prefix, monitors, chan).value;
      var specs := Elements(quotes[|quotes| - 1].1);
      TotalExtend(acc, CurrencyPair(base, quotes[|quotes| - 1].0), BuildAll(specs, monitors, chan).value);
    }
  }

  lemma {:induction false} BasesTotal(cat: Catalog, bases: seq<(Bytes, Value)>, monitors: Monitors, chan: Channel)
    requires AddBases(cat, bases, monitors, chan).Success?
    ensures Total(AddBases(cat, bases, monitors, chan).value) == Total(cat) + BaseEntries(bases)
  {
    if |bases| > 0 {
      var prefix := bases[..|bases| - 1];
      AddBasesStep(cat, bases, monitors, chan);
      BasesTotal(cat, prefix, monitors, chan);
      QuotesTotal(AddBases(cat, prefix, monitors, chan).value, bases[|bases| - 1].0,
                  Members(bases[|bases| - 1].1).value, monitors, chan);
    }
  }

  /** `strategies()` returns one handle per strategy specification in the section. */
  lemma StrategiesTotal(section: Value, monitors: Monitors, chan: Channel)
    requires StrategiesOf(section, monitors, chan).Success?
    ensures Total(StrategiesOf(section, monitors, chan).value) == BaseEntries(Members(section).value)
  {
    BasesTotal(map[], Members(section).value, monitors, chan);
  }
}
