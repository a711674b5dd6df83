/** `Config::monitorPairs`: the currency pairs listed under `monitor.pairs`. */
module Monitor {
  import opened Wrappers
  import opened Text
  import opened Json
  import opened Pairs

  /** `currency_pair_t(pair.at(0), pair.at(1))`: the entry must be an array (`at` throws
      type_error otherwise) of at least two items (out_of_range otherwise) whose first two
      items are strings (the conversions to `std::string`); further items are ignored. */
  function PairOf(entry: Value): (r: Result<CurrencyPair, Error>)
    ensures r.Success? <==> entry.Array? && |entry.items| >= 2 && entry.items[0].Str? && entry.items[1].Str?
    ensures r.Success? ==> r.value == CurrencyPair(entry.items[0].s, entry.items[1].s)
    ensures r.Failure? ==> r.error == BadPairEntry(entry)
  {
    if entry.Array? && |entry.items| >= 2 && entry.items[0].Str? && entry.items[1].Str? then
      Success(CurrencyPair(entry.items[0].s, entry.items[1].s))
    else
      Failure(BadPairEntry(entry))
  }

  /** The pairs of the entries in order, or the exception of the first bad entry. */
  function PairsOf(entries: seq<Value>): (r: Result<seq<CurrencyPair>, Error>)
    ensures r.Success? <==> forall i :: 0 <= i < |entries| ==> PairOf(entries[i]).Success?
    ensures r.Success? ==> |r.value| == |entries| &&
                           forall i :: 0 <= i < |entries| ==> r.value[i] == PairOf(entries[i]).value
    ensures r.Failure? ==> exists i :: 0 <= i < |entries| && r == Failure(BadPairEntry(entries[i])) &&
                                       PairOf(entries[i]).Failure? &&
                                       forall j :: 0 <= j < i ==> PairOf(entries[j]).Success?
  {
    if |entries| == 0 then Success([])
    else
      var prefix := entries[..|entries| - 1];
      assert forall i :: 0 <= i < |prefix| ==> prefix[i] == entries[i];
      var done :- PairsOf(prefix);
      var pair :- PairOf(entries[|entries| - 1]);
      Success(done + [pair])
  }

  /** The configuration entry `[base, quote]` that lists a pair. */
  function EntryOf(pair: CurrencyPair): Value {
    Array([Str(pair.base), Str(pair.quote)])
  }

  function EntriesOf(pairs: seq<CurrencyPair>): (r: seq<Value>)
    ensures |r| == |pairs| && forall i :: 0 <= i < |pairs| ==> r[i] == EntryOf(pairs[i])
  {
    seq(|pairs|, i requires 0 <= i < |pairs| => EntryOf(pairs[i]))
  }

  /** Listing pairs as `[base, quote]` entries and reading them back gives the same pairs. */
  lemma PairsRoundTrip(pairs: seq<CurrencyPair>)
    ensures PairsOf(EntriesOf(pairs)) == Success(pairs)
  {
    var entries := EntriesOf(pairs);
    assert forall i :: 0 <= i < |entries| ==> PairOf(entries[i]) == Success(pairs[i]);
    var r := PairsOf(entries);
    assert r.Success? && |r.value| == |pairs|;
    assert forall i :: 0 <= i < |pairs| ==> r.value[i] == pairs[i];
    assert r.value == pairs;
  }

  /** The loop of `Config::monitorPairs` over the value of `monitor.pairs`. */
  method BuildPairs(list: Value) returns (r: Result<seq<CurrencyPair>, Error>)
    ensures r == PairsOf(Elements(list))
  {
    var entries := Elements(list);
    var pairs: seq<CurrencyPair> := [];
    for i := 0 to |entries|
      invariant PairsOf(entries[..i]) == Success(pairs)
    {
      var entry := entries[i];
      assert entries[..i + 1][..i] == entries[..i];
      if !(entry.Array? && |entry.items| >= 2 && entry.items[0].Str? && entry.items[1].Str?) {
        PairFailurePersists(entries, i + 1);
        return Failure(BadPairEntry(entry));
      }
      pairs := pairs + [CurrencyPair(entry.items[0].s, entry.items[1].s)];
    }
    assert entries[..|entries|] == entries;
    return Success(pairs);
  }

  /** Once a prefix of the entries fails, the whole list fails the same way. */
  lemma {:induction false} PairFailurePersists(entries: seq<Value>, k: nat)
    requires k <= |entries| && PairsOf(entries[..k]).Failure?
    ensures PairsOf(entries) == PairsOf(entries[..k])
    decreases |entries| - k
  {
    if k < |entries| {
      assert entries[..k + 1][..k] == entries[..k];
      PairFailurePersists(entries, k + 1);
    } else {
      assert entries[..k] == entries;
    }
  }
}
