# openatd configuration interpreter, modelled in Dafny

This project models `atd::Config` from `src/atd/config.cc`. That is the part of the
trading daemon that walks the parsed JSON configuration and builds:

- the market data sources (`markets()`);
- the exchanges (`exchanges()`), where ShapeShift is always present;
- the trading strategies for every currency pair (`strategies(monitors, chan)`);
- the monitored currency pairs (`monitorPairs()`).

It also models the helpers these rely on:

- `_hash`, the key every `switch` dispatches on;
- `quantity_from_json`, which reads a fixed amount and/or a balance percentage.

Modules, one per file:

| file | module | contents |
|---|---|---|
| `wrappers.dfy` | `Wrappers` | Option and Result; a thrown exception is a `Failure` |
| `text.dfy` | `Text` | byte strings, `at::toupper` (ASCII a–z to A–Z), `std::string` ordering |
| `json.dfy` | `Json` | the nlohmann value as a datatype, and the accessors the code uses, each with the outcome the library gives it |
| `dispatch.dfy` | `Dispatch` | `_hash` as a function and as the source's loop, plus the case labels |
| `quantity.dfy` | `Quantities` | `quantity_from_json` |
| `markets.dfy` | `Markets` | `Config::markets` |
| `exchanges.dfy` | `Exchanges` | `Config::exchanges` |
| `pairs.dfy`, `monitor.dfy` | `Pairs`, `Monitor` | `currency_pair_t` and `Config::monitorPairs` |
| `strategies.dfy` | `Strategies` | one strategy specification turned into a strategy |
| `catalog.dfy` | `Catalogs` | the three nested loops of `Config::strategies` |
| `config.dfy` | `Configuration` | the `Config` class holding the document |

The loops of the source are methods, each proved equal to a specification function:

- `Dispatch.Hash`
- `Markets.BuildMarkets`
- `Exchanges.BuildExchanges`
- `Monitor.BuildPairs`
- `Catalogs.BuildStrategies`

The source's properties are proved about those functions.

Where the design description and the code disagree, the model follows the code:

- **Dispatch compares hashes, not names.** A key whose `_hash` equals `_hash("kraken")` enters the kraken case. `KrakenTwinSelectsKraken` exhibits such a key: "krakenaaaaaaaaaaaaaaaa".
- **Section access changes the document.** The document is described as read-only. But every section is read with the non-const `_config[...]`, which adds a missing section as `null`. So `Config` is a class whose `doc` field the accessors update.
- **Shapes other than objects are errors too.** A quantity fragment that is not an object fails. So does a present field of the wrong type. Iterating keys over a non-object fails, except over null or an empty array.

Strings are bytes. `_hash` sign-extends each `char`, as a signed `char` does. The model does not restrict keys to ASCII.

## Model

| member | source | states |
|---|---|---|
| Text.ToUpper | src/atd/config.cc:158 | the upper-cased name has the same length, contains no lower-case letter, and each byte is kept or is its lower-case letter moved to upper case |
| Text.ToUpperIdempotent | src/atd/config.cc:158 | upper-casing an upper-cased name changes nothing |
| Json.Members | src/atd/config.cc:70 | an iterator loop that reads `it.key()` visits an object's members; it visits nothing for null or an empty array, and throws for any other value |
| Json.Elements | src/atd/config.cc:156 | a range-for visits an array's items or an object's values; it visits nothing for null, and the value itself for a scalar |
| Json.Field | src/atd/config.cc:157 | a required member is read exactly when the object has it, and its value is the member's |
| Json.AsString | src/atd/config.cc:157 | only a string converts to `std::string` |
| Json.AsNumber | src/atd/config.cc:170 | numbers and booleans convert to `float`; a boolean gives 1 or 0; anything else throws |
| Json.AsSeconds | src/atd/config.cc:171-174 | a seconds count is the integer, or the floating-point value truncated toward zero; every other value, a boolean included, is a type error |
| Json.Truncate | src/atd/config.cc:171-174 | the result lies within 1 of x, on the side of zero |
| Json.FindInFirst | src/atd/config.cc:100 | `find` finds a key exactly when some member has it, and then yields the value of the first such member |
| Json.ReplaceFinds | src/atd/config.cc:131 | after a member's value is replaced, its key finds the new value and every other key finds what it found before |
| Json.Subscript | src/atd/config.cc:68 | non-const `v[key]` is defined exactly on objects and null; it yields the member; a missing key is added as null; other keys are unchanged and sorted order is kept |
| Json.InsertFinds | src/atd/config.cc:68 | after a key is added, it is found with its value and every other key as before |
| Json.SortedKeysAreDistinct | src/atd/config.cc:152 | keys in ascending order, as a parsed object keeps them, are distinct |
| Json.InsertKeepsOrder | src/atd/config.cc:68 | adding a key keeps an object's keys in ascending order |
| Json.Store | src/atd/config.cc:131 | writing through `v[key]` changes that member only |
| Json.SubscriptAgain | src/atd/config.cc:68 | a second `_config[key]` finds what the first added and changes nothing |
| Json.InvalidKeyMessage | src/atd/config.cc:80-82 | the message is the key followed by " is not a valid key" |
| Json.InvalidKeyMessageNamesKey | src/atd/config.cc:80-82 | two keys with the same message are the same key |
| Dispatch.Hash | src/atd/config.cc:20-31 | the loop computes the XOR of the bytes shifted by position mod 8, up to the first NUL; it gives 0 for NULL and for "" |
| Dispatch.HashStopsAtNul | src/atd/config.cc:26 | bytes after a NUL do not affect the hash |
| Dispatch.KrakenCase | src/atd/config.cc:72 | "kraken" hashes to its case label 0x9C3 |
| Dispatch.ShapeshiftCase | src/atd/config.cc:98 | "shapeshift" hashes to its case label 0x2499 |
| Dispatch.StrategyCases | src/atd/config.cc:162-195 | each of the four strategy names hashes to its own case label, and the four labels are pairwise distinct |
| Dispatch.KrakenTwinSelectsKraken | src/atd/config.cc:71-72 | a key other than "kraken" enters the kraken case |
| Quantities.FromJson | src/atd/config.cc:39-62 | fails with the "required" error exactly when the object has neither field; succeeds exactly when some field is present and every present one converts; each present field is copied and an absent one stays 0 |
| Quantities.FixedAmountOnly | src/atd/config.cc:41-53 | only `fixed_amount` given: the balance percentage is 0 |
| Markets.KrakenFrom | src/atd/config.cc:73-76 | a Kraken is built exactly when `apiKey` and `apiSecret` are strings, and from them |
| Markets.MarketsFrom | src/atd/config.cc:70-84 | succeeds exactly when every key enters the kraken case and builds; the only result key is "kraken", holding the first member's Kraken |
| Markets.FirstRejectionDecides | src/atd/config.cc:79-82 | the first member not accepted decides the exception: an invalid key, or its credentials' error |
| Markets.MarketsOf | src/atd/config.cc:65-87 | a null or empty section gives no markets; result keys lie within {"kraken"}; iterating a non-object throws |
| Markets.BuildMarkets | src/atd/config.cc:65-87 | the loop returns exactly MarketsOf of the section |
| Exchanges.ShapeshiftFrom | src/atd/config.cc:99-105 | no `affiliatePrivateKey` means nothing is built; a present one must be a string, and the exchange carries it |
| Exchanges.ExchangesFrom | src/atd/config.cc:96-112 | succeeds exactly when every key enters the shapeshift case and its body does not throw; "shapeshift" is present exactly when some member carries a credential |
| Exchanges.FirstRejectionDecides | src/atd/config.cc:107-110 | the first member not accepted decides the exception |
| Exchanges.FirstCredentialKept | src/atd/config.cc:100-105 | the stored ShapeShift is the one built by the first member with a credential; later ones do not replace it |
| Exchanges.ExchangesOf | src/atd/config.cc:91-121 | on success the key set is exactly {"shapeshift"}; a null or empty section gives the credential-less default; success is exactly the loop's success, and a failing loop's exception is the one thrown |
| Exchanges.CredentialSurvivesDefault | src/atd/config.cc:100-118 | the ShapeShift returned is the one built by the first member with a credential; the default insertion does not replace it |
| Exchanges.NoCredentialDefault | src/atd/config.cc:114-118 | without any credential, the entry returned is the credential-less default |
| Exchanges.BuildExchanges | src/atd/config.cc:91-121 | the loop plus the default insertion returns exactly ExchangesOf of the section |
| Monitor.PairOf | src/atd/config.cc:132 | an entry gives a pair exactly when it is an array whose first two items are strings; the pair is (item 0, item 1) |
| Monitor.PairsOf | src/atd/config.cc:131-133 | succeeds exactly when every entry gives a pair; the pairs are in entry order, one per entry; otherwise the first bad entry is reported |
| Monitor.PairsRoundTrip | src/atd/config.cc:131-133 | listing pairs as `[base, quote]` entries and reading them back gives the same pairs |
| Monitor.BuildPairs | src/atd/config.cc:128-135 | the loop returns exactly PairsOf of the iterated entries |
| Monitor.PairFailurePersists | src/atd/config.cc:131-133 | once an entry fails, the whole list fails the same way |
| Strategies.BuyLowAndHodlFrom | src/atd/config.cc:168-181 | built exactly from `low`, `trade_period`, `stats_period` and `quote.balance_percentage`; it is built whenever all four convert |
| Strategies.DollarCostAveragingFrom | src/atd/config.cc:183-193 | built exactly from the quantity at `buy.quote` and the string `date`; it is built whenever both are there |
| Strategies.SmallChangesFrom | src/atd/config.cc:195-205 | built exactly from the quantities at `buy.base` and `sell.base`; it is built whenever both are there |
| Strategies.Build | src/atd/config.cc:156-226 | a strategy is built only in the case its upper-cased name selects, with the given monitors and channel; HODL always builds; the parameter-taking cases require `params`; any other name fails with the upper-cased name |
| Strategies.HodlInAnyCase | src/atd/config.cc:157-167 | "hodl", "HoDl" and "HODL" all build HODL |
| Strategies.HodlNamed | src/atd/config.cc:157-167 | any name that upper-cases to "HODL" builds HODL |
| Strategies.BogusNameRejected | src/atd/config.cc:222-225 | "bogus" fails as invalid key "BOGUS" |
| Catalogs.BuildAll | src/atd/config.cc:156-227 | one array builds exactly when every specification does, and then gives one strategy per specification |
| Catalogs.BuildAllInOrder | src/atd/config.cc:156-165 | the i-th strategy of an array is the one its i-th specification builds |
| Catalogs.FirstFailureDecides | src/atd/config.cc:222-225 | the first specification that fails decides the exception |
| Catalogs.Push | src/atd/config.cc:163 | `ret[pair].push_back(s)` appends s to that pair's list, creating it, and leaves every other pair alone |
| Catalogs.AddArray | src/atd/config.cc:156-227 | pushing an array's strategies one by one equals appending the whole built list at once; a failure aborts it |
| Catalogs.AddQuotes | src/atd/config.cc:152-228 | succeeds exactly when every array under the base builds; pairs of other bases or unlisted quotes are untouched; no pair appears without a strategy |
| Catalogs.AddBases | src/atd/config.cc:149-229 | succeeds exactly when every base has quote members and all their arrays build; pairs outside the listed bases are untouched; every new pair is listed |
| Catalogs.StrategiesOf | src/atd/config.cc:142-231 | a null or empty section gives no strategies; success is exactly "every array builds"; only pairs with a strategy appear, and every pair is listed in the section |
| Catalogs.QuotesContent | src/atd/config.cc:152-165 | with distinct quote keys, each quote's pair receives exactly its array's strategies |
| Catalogs.BasesContent | src/atd/config.cc:149-165 | with distinct keys, the pair (base i, quote j) receives exactly its array's strategies |
| Catalogs.PairStrategies | src/atd/config.cc:149-165 | for a section whose objects have their keys in order, as every parsed object does, each pair's list is its array's strategies in array order; the pair is a key exactly when its array is nonempty |
| Catalogs.QuotesFailurePersists | src/atd/config.cc:152-228 | an exception under one quote aborts the whole base with that exception |
| Catalogs.BasesFailurePersists | src/atd/config.cc:149-229 | an exception under one base aborts the whole call with that exception; nothing partial is returned |
| Catalogs.QuotesFirstFailure | src/atd/config.cc:152-227 | under one base, the first quote whose array fails decides the exception |
| Catalogs.BasesFailAtKeys | src/atd/config.cc:149-152 | the first base whose value cannot be iterated by key, after bases that all build, decides the exception: invalid_iterator |
| Catalogs.BasesFailAtQuote | src/atd/config.cc:149-229 | otherwise the first failing quote under the first failing base decides the exception |
| Catalogs.StrategiesFirstFailure | src/atd/config.cc:142-231 | `strategies()` throws the exception of the first specification that fails, in base, quote and array order |
| Catalogs.StrategiesKeysFailure | src/atd/config.cc:149-152 | a base that cannot be iterated by key, after bases that all build, makes `strategies()` throw invalid_iterator |
| Catalogs.TotalExtend | src/atd/config.cc:163 | appending n strategies adds n handles |
| Catalogs.QuotesTotal | src/atd/config.cc:152-228 | the handles added for a base are the number of specifications under it |
| Catalogs.BasesTotal | src/atd/config.cc:149-229 | the handles added are the number of specifications in the section |
| Catalogs.StrategiesTotal | src/atd/config.cc:142-231 | the number of handles returned equals the number of specifications in the section |
| Catalogs.BuildArray | src/atd/config.cc:156-226 | the innermost loop returns exactly AddArray: all of the array's strategies pushed onto the pair's list, or the first exception |
| Catalogs.BuildQuotes | src/atd/config.cc:152-227 | the middle loop returns exactly AddQuotes of the base's quotes |
| Catalogs.BuildStrategies | src/atd/config.cc:142-231 | the outer loop returns exactly StrategiesOf of the section |
| Configuration.MonitorPairsAccess | src/atd/config.cc:131 | `_config["monitor"]["pairs"]` returns the existing `monitor.pairs` when there is one, and null when `monitor` is missing, null or an object without `pairs`; a non-object `monitor` throws; the document keeps every other section |
| Configuration.AbsentSections | src/atd/config.cc:68 | a missing section reads as null and gives: no markets, the default ShapeShift, no strategies |
| Configuration.Config.constructor | src/atd/config.cc:33-37 | the document is the parsed file |
| Configuration.Config.Section | src/atd/config.cc:68 | `_config[key]` returns the section and updates the document as Subscript states |
| Configuration.Config.Markets | src/atd/config.cc:65-87 | the result is MarketsOf the section read; the document gains the section if it was missing |
| Configuration.Config.Exchanges | src/atd/config.cc:91-121 | the result is ExchangesOf the section read; the document gains the section if it was missing |
| Configuration.Config.Strategies | src/atd/config.cc:142-231 | the result is StrategiesOf the section read, with the given collaborators; the document gains the section if it was missing |
| Configuration.Config.MonitorPairs | src/atd/config.cc:128-135 | the result is PairsOf the entries iterated under `monitor.pairs`; the document is updated by both subscripts |

## Left out

- Reading and parsing the file in `Config(path)` (src/atd/config.cc:33-37): this is I/O plus a foreign parser. The constructor takes the parsed document.
- The `std::cout` confirmation notices: these are output only.
- `monitorPeriod` and `monitorCurrencies` (src/atd/config.cc:123-126, 137-140): single accessors outside the core.
- The internals of Kraken, Shapeshift, the strategies, `DataMonitor` and `channel`. These sources are not part of this model. Constructed objects are records of their constructor arguments, and the two collaborators are identities.
- `at::toupper` is not part of this model. It is assumed to map ASCII a–z to A–Z and keep every other byte.
- The BUYLOWSELLHIGH branch: it is commented out in the source.
- Json.AsNumber: does not round to 32-bit `float`, because the values are only copied, never computed with.
- Json.AsSeconds: does not model `long long` overflow of very large numbers.
- Json.AsSeconds: assumes the GNU C++ library on 64-bit Linux. There `std::chrono::seconds::rep` is `int64_t`, the JSON library's own integer type, whose conversion refuses a boolean. With a library whose `rep` is another integer type, the generic arithmetic conversion would turn a boolean into 1 or 0.
- Json.Field: exceptions are told apart only by kind, and carry a field name rather than nlohmann's message text. A missing member of a const object is undefined behaviour in the source; here it is a failure.
- Markets.KrakenFrom: the order in which C++ evaluates the two constructor arguments is unspecified. The model reads `apiKey` first, which can change which of two errors is reported, but not whether one is.
- Quantities.FromJson: the exception's message text (`obj.dump()` followed by the required-field notice) is not modelled. The error carries the fragment itself.
- Copies of sections: the loops work on copies, so their own `operator[]` insertions (for example into `params`) never reach the document and are not modelled.
- Strings are byte strings: there is no encoding and no locale.
- Dispatch.HashFrom: fixes one platform choice, a signed `char` and two's-complement shifts. Whether `char` is signed depends on the platform. In C++17, left-shifting the negative value of a byte at or above 0x80 is undefined behaviour. So for such keys the source promises no particular hash.
